/** The string clean-up the service applies to keys: trimming ASCII white space
    and changing ASCII case. */
module Text {
  predicate IsSpace(c: char) {
    c == ' ' || c == '\t' || c == '\n' || c == '\r'
  }

  function StripLeft(s: string): (r: string)
    ensures |r| <= |s|
    ensures r != [] ==> !IsSpace(r[0])
    ensures s != [] && !IsSpace(s[0]) ==> r == s
  {
    if s != [] && IsSpace(s[0]) then StripLeft(s[1..]) else s
  }

  function StripRight(s: string): (r: string)
    ensures r <= s
    ensures r != [] ==> !IsSpace(r[|r| - 1])
    ensures s != [] && !IsSpace(s[|s| - 1]) ==> r == s
  {
    if s != [] && IsSpace(s[|s| - 1]) then StripRight(s[..|s| - 1]) else s
  }

  /** Trimming leaves nothing to trim. */
  function Strip(s: string): (r: string)
    ensures r != [] ==> !IsSpace(r[0]) && !IsSpace(r[|r| - 1])
    ensures s != [] && !IsSpace(s[0]) && !IsSpace(s[|s| - 1]) ==> r == s
    ensures s == [] ==> r == []
  {
    StripRight(StripLeft(s))
  }

  function LowerChar(c: char): char {
    if 'A' <= c <= 'Z' then c - 'A' + 'a' else c
  }

  function UpperChar(c: char): char {
    if 'a' <= c <= 'z' then c - 'a' + 'A' else c
  }

  function Lower(s: string): (r: string)
    ensures |r| == |s|
    ensures forall i :: 0 <= i < |s| ==> r[i] == if 'A' <= s[i] <= 'Z' then s[i] - 'A' + 'a' else s[i]
  {
    seq(|s|, i requires 0 <= i < |s| => LowerChar(s[i]))
  }

  function Upper(s: string): (r: string)
    ensures |r| == |s|
    ensures forall i :: 0 <= i < |s| ==> r[i] == if 'a' <= s[i] <= 'z' then s[i] - 'a' + 'A' else s[i]
  {
    seq(|s|, i requires 0 <= i < |s| => UpperChar(s[i]))
  }

  lemma {:induction false} StripLeftParts(s: string) returns (a: string)
    ensures s == a + StripLeft(s)
    ensures forall i :: 0 <= i < |a| ==> a[i] == ' ' || a[i] == '\t' || a[i] == '\n' || a[i] == '\r'
    ensures StripLeft(s) != [] ==> StripLeft(s)[0] !in {' ', '\t', '\n', '\r'}
  {
    if s != [] && IsSpace(s[0]) {
      var rest := StripLeftParts(s[1..]);
      a := [s[0]] + rest;
      assert s == [s[0]] + s[1..];
    } else {
      a := [];
      assert s == [] + s;
    }
  }

  lemma {:induction false} StripRightParts(s: string) returns (b: string)
    ensures s == StripRight(s) + b
    ensures forall i :: 0 <= i < |b| ==> b[i] == ' ' || b[i] == '\t' || b[i] == '\n' || b[i] == '\r'
    ensures StripRight(s) != [] ==> StripRight(s)[|StripRight(s)| - 1] !in {' ', '\t', '\n', '\r'}
  {
    if s != [] && IsSpace(s[|s| - 1]) {
      var rest := StripRightParts(s[..|s| - 1]);
      b := rest + [s[|s| - 1]];
      assert s == s[..|s| - 1] + [s[|s| - 1]];
    } else {
      b := [];
      assert s == s + [];
    }
  }

  /** Trimming takes white space off both ends, all of it and nothing else. */
  lemma StripParts(s: string) returns (a: string, b: string)
    ensures s == a + Strip(s) + b
    ensures forall i :: 0 <= i < |a| ==> a[i] == ' ' || a[i] == '\t' || a[i] == '\n' || a[i] == '\r'
    ensures forall i :: 0 <= i < |b| ==> b[i] == ' ' || b[i] == '\t' || b[i] == '\n' || b[i] == '\r'
    ensures Strip(s) != [] ==>
              && Strip(s)[0] !in {' ', '\t', '\n', '\r'}
              && Strip(s)[|Strip(s)| - 1] !in {' ', '\t', '\n', '\r'}
  {
    a := StripLeftParts(s);
    b := StripRightParts(StripLeft(s));
    hide StripLeft, StripRight;
    assert Strip(s) == StripRight(StripLeft(s));
  }

  lemma StripIdempotent(s: string)
    ensures Strip(Strip(s)) == Strip(s)
  {
  }

  lemma LowerStripIdempotent(s: string)
    ensures Lower(Strip(Lower(Strip(s)))) == Lower(Strip(s))
  {
    hide Strip, StripLeft, StripRight;
    var t := Lower(Strip(s));
    assert Strip(t) == t;
    assert Lower(t) == t;
  }

  lemma UpperStripIdempotent(s: string)
    ensures Upper(Strip(Upper(Strip(s)))) == Upper(Strip(s))
  {
    hide Strip, StripLeft, StripRight;
    var t := Upper(Strip(s));
    assert Strip(t) == t;
    assert Upper(t) == t;
  }
}
