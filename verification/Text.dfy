/** `symbol.strip().upper()` on ASCII text, and the ordering of strings. */
module Text {

  predicate IsSpace(c: char) { c == ' ' || '\t' <= c <= '\r' || '\U{1C}' <= c <= '\U{1F}' }

  function UpperChar(c: char): char {
    if 'a' <= c <= 'z' then (c as int - 32) as char else c
  }

  function Upper(s: string): string {
    if s == "" then "" else [UpperChar(s[0])] + Upper(s[1..])
  }

  function StripLeft(s: string): string {
    if s != "" && IsSpace(s[0]) then StripLeft(s[1..]) else s
  }

  function StripRight(s: string): string {
    if s != "" && IsSpace(s[|s| - 1]) then StripRight(s[..|s| - 1]) else s
  }

  function Normalize(symbol: string): string { Upper(StripRight(StripLeft(symbol))) }

  function LowerChar(c: char): char {
    if 'A' <= c <= 'Z' then (c as int + 32) as char else c
  }

  function Lower(s: string): string {
    if s == "" then "" else [LowerChar(s[0])] + Lower(s[1..])
  }

  function StripLower(name: string): string { Lower(StripRight(StripLeft(name))) }

  predicate Trimmed(s: string) {
    s == "" || (!IsSpace(s[0]) && !IsSpace(s[|s| - 1]))
  }

  lemma {:induction false} StripRightTrims(s: string)
    ensures StripRight(s) == "" || !IsSpace(StripRight(s)[|StripRight(s)| - 1])
    ensures s != "" && !IsSpace(s[0]) ==> StripRight(s) != "" && StripRight(s)[0] == s[0]
  {
    if s != "" && IsSpace(s[|s| - 1]) {
      StripRightTrims(s[..|s| - 1]);
    }
  }

  lemma {:induction false} StripLeftTrims(s: string)
    ensures StripLeft(s) == "" || !IsSpace(StripLeft(s)[0])
  {
    if s != "" && IsSpace(s[0]) {
      StripLeftTrims(s[1..]);
    }
  }

  lemma {:induction false} UpperPointwise(s: string)
    ensures |Upper(s)| == |s| && forall i | 0 <= i < |s| :: Upper(s)[i] == UpperChar(s[i])
  {
    if s != "" {
      UpperPointwise(s[1..]);
    }
  }

  /** Normalising what is already normalised changes nothing. */
  lemma NormalizeIdempotent(symbol: string)
    ensures Normalize(Normalize(symbol)) == Normalize(symbol)
  {
    var left := StripLeft(symbol);
    var s := StripRight(left);
    StripLeftTrims(symbol);
    StripRightTrims(left);
    assert Trimmed(s);
    UpperPointwise(s);
    var u := Upper(s);
    assert Trimmed(u);
    assert StripLeft(u) == u && StripRight(u) == u;
    UpperPointwise(u);
    assert Upper(u) == u;
  }

  /** Python's `<=` on strings: by code point, a prefix first. */
  predicate StringLeq(s: string, t: string) {
    s == "" || (t != "" && (s[0] < t[0] || (s[0] == t[0] && StringLeq(s[1..], t[1..]))))
  }

  /** `s` is a prefix of `t`, or smaller at the first place where they differ. */
  ghost predicate Precedes(s: string, t: string) {
    s <= t || exists k: nat :: DifferAt(s, t, k)
  }

  lemma CommonStart(s: string, t: string, k: nat)
    requires k < |s| && k < |t|
    ensures s[0] != t[0] && s[..k] == t[..k] ==> k == 0
  {
    if k > 0 {
      assert s[..k][0] == s[0] && t[..k][0] == t[0];
    }
  }

  predicate DifferAt(s: string, t: string, k: nat) {
    k < |s| && k < |t| && s[..k] == t[..k] && s[k] < t[k]
  }

  lemma DifferLater(s: string, t: string, k: nat)
    requires s != "" && t != "" && s[0] == t[0]
    ensures DifferAt(s[1..], t[1..], k) <==> DifferAt(s, t, k + 1)
  {
    if k < |s[1..]| && k < |t[1..]| {
      assert s[..k + 1] == [s[0]] + s[1..][..k] && t[..k + 1] == [t[0]] + t[1..][..k];
      assert s[..k + 1][1..] == s[1..][..k] && t[..k + 1][1..] == t[1..][..k];
    }
  }

  lemma {:induction false} StringLeqMeans(s: string, t: string)
    ensures StringLeq(s, t) <==> Precedes(s, t)
  {
    if s != "" && t != "" && s[0] == t[0] {
      StringLeqMeans(s[1..], t[1..]);
      SameHead(s, t);
    } else if s != "" && t != "" {
      OtherHead(s, t);
    }
  }

  lemma SameHead(s: string, t: string)
    requires s != "" && t != "" && s[0] == t[0]
    ensures Precedes(s, t) <==> Precedes(s[1..], t[1..])
  {
    hide DifferAt;
    assert s == [s[0]] + s[1..] && t == [t[0]] + t[1..];
    if k: nat :| DifferAt(s[1..], t[1..], k) {
      DifferLater(s, t, k);
    }
    if k: nat :| DifferAt(s, t, k) {
      NotAtHead(s, t, k);
      DifferLater(s, t, k - 1);
    }
  }

  lemma NotAtHead(s: string, t: string, k: nat)
    requires s != "" && t != "" && s[0] == t[0] && DifferAt(s, t, k)
    ensures k > 0
  {
  }

  lemma OtherHead(s: string, t: string)
    requires s != "" && t != "" && s[0] != t[0]
    ensures Precedes(s, t) <==> s[0] < t[0]
  {
    if s[0] < t[0] {
      assert DifferAt(s, t, 0);
    }
    if k: nat :| DifferAt(s, t, k) {
      CommonStart(s, t, k);
    }
  }

  lemma {:induction false} StringLeqTotal(s: string, t: string)
    ensures StringLeq(s, t) || StringLeq(t, s)
    ensures StringLeq(s, t) && StringLeq(t, s) ==> s == t
  {
    if s != "" && t != "" {
      StringLeqTotal(s[1..], t[1..]);
      assert s == [s[0]] + s[1..] && t == [t[0]] + t[1..];
    }
  }

  lemma {:induction false} StringLeqTransitive(s: string, t: string, u: string)
    requires StringLeq(s, t) && StringLeq(t, u)
    ensures StringLeq(s, u)
  {
    if s != "" && s[0] == t[0] == u[0] {
      StringLeqTransitive(s[1..], t[1..], u[1..]);
    }
  }
}
