/** Trimming of ASCII white space. */
module Texts {
  predicate IsSpace(c: char) {
    c == ' ' || '\t' <= c <= '\r' || '\U{1C}' <= c <= '\U{1F}'
  }

  function StripLeft(s: string): (r: string)
    ensures |r| > 0 ==> !IsSpace(r[0])
  {
    if |s| > 0 && IsSpace(s[0]) then StripLeft(s[1..]) else s
  }

  function StripRight(s: string): (r: string)
    ensures r <= s && (|r| > 0 ==> !IsSpace(r[|r| - 1]))
  {
    if |s| > 0 && IsSpace(s[|s| - 1]) then StripRight(s[..|s| - 1]) else s
  }

  function Strip(s: string): string { StripRight(StripLeft(s)) }

  ghost predicate Blank(s: string) {
    forall i :: 0 <= i < |s| ==> IsSpace(s[i])
  }

  lemma {:induction false} StripLeftCuts(s: string) returns (u: string)
    ensures s == u + StripLeft(s) && Blank(u)
  {
    u := "";
    if |s| > 0 && IsSpace(s[0]) {
      var v := StripLeftCuts(s[1..]);
      u := [s[0]] + v;
    }
  }

  lemma {:induction false} StripRightCuts(s: string) returns (v: string)
    ensures s == StripRight(s) + v && Blank(v)
  {
    v := "";
    if |s| > 0 && IsSpace(s[|s| - 1]) {
      var u := StripRightCuts(s[..|s| - 1]);
      v := u + [s[|s| - 1]];
    }
  }

  /** Only white space is cut off, at either end, and none is left there; nothing is left of a
      text exactly when it is all white space. */
  lemma {:induction false} StripCuts(s: string) returns (u: string, v: string)
    ensures var t := Strip(s);
            && s == u + t + v && Blank(u) && Blank(v)
            && (|t| > 0 ==> !IsSpace(t[0]) && !IsSpace(t[|t| - 1]))
            && (|t| == 0 <==> Blank(s))
  {
    u := StripLeftCuts(s);
    v := StripRightCuts(StripLeft(s));
    var t := Strip(s);
    if |t| > 0 {
      assert s[|u|] == t[0];
    }
  }
}
