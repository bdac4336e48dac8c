/** String helpers with JavaScript/Python meaning: `split` on one character,
    `replace` of the first occurrence, and the lexicographic order `<` on strings. */
module Text {
  import opened Common

  /** `s.split(sep)` (JavaScript and Python agree for a one-character separator):
      the pieces between separators, one more piece than there are separators. */
  function Split(s: string, sep: char): (r: seq<string>)
    ensures |r| >= 1
  {
    if s == [] then [[]]
    else
      var rest := Split(s[1..], sep);
      if s[0] == sep then [[]] + rest else [[s[0]] + rest[0]] + rest[1..]
  }

  /** Glues pieces back together with the separator. */
  function Join(parts: seq<string>, sep: char): string
    requires |parts| >= 1
  {
    if |parts| == 1 then parts[0] else parts[0] + [sep] + Join(parts[1..], sep)
  }

  function CountChar(s: string, c: char): nat {
    if s == [] then 0 else (if s[0] == c then 1 else 0) + CountChar(s[1..], c)
  }

  /** Splitting yields exactly one more field than the number of separators. */
  lemma {:induction false} SplitCount(s: string, sep: char)
    ensures |Split(s, sep)| == CountChar(s, sep) + 1
  {
    if s != [] {
      SplitCount(s[1..], sep);
    }
  }

  /** No piece contains the separator. */
  lemma {:induction false} SplitPiecesFree(s: string, sep: char)
    ensures forall i :: 0 <= i < |Split(s, sep)| ==> sep !in Split(s, sep)[i]
  {
    if s != [] {
      SplitPiecesFree(s[1..], sep);
      var rest := Split(s[1..], sep);
      if s[0] != sep {
        assert sep !in rest[0];
        assert forall c :: c in [s[0]] + rest[0] ==> c == s[0] || c in rest[0];
      }
    }
  }

  /** Joining the pieces with the separator gives back the original string. */
  lemma {:induction false} SplitJoin(s: string, sep: char)
    ensures Join(Split(s, sep), sep) == s
  {
    if s != [] {
      SplitJoin(s[1..], sep);
      var rest := Split(s[1..], sep);
      if s[0] == sep {
        assert ([[]] + rest)[1..] == rest;
      } else if |rest| == 1 {
      } else {
        var parts := [[s[0]] + rest[0]] + rest[1..];
        assert parts[1..] == rest[1..];
        assert Join(rest, sep) == rest[0] + [sep] + Join(rest[1..], sep);
      }
    }
  }

  /** The first piece is the longest prefix free of the separator. */
  lemma {:induction false} SplitFirstPiece(s: string, sep: char)
    ensures |Split(s, sep)[0]| <= |s|
    ensures Split(s, sep)[0] == s[..|Split(s, sep)[0]|]
    ensures sep !in Split(s, sep)[0]
    ensures |Split(s, sep)[0]| < |s| ==> s[|Split(s, sep)[0]|] == sep
  {
    SplitPiecesFree(s, sep);
    if s != [] && s[0] != sep {
      SplitFirstPiece(s[1..], sep);
    }
  }

  /** `pat` occurs in `s` starting at index `i`. */
  predicate OccursAt(s: string, pat: string, i: nat) {
    i + |pat| <= |s| && s[i..i + |pat|] == pat
  }

  lemma OccursAtShift(s: string, pat: string, i: nat)
    requires s != []
    ensures OccursAt(s, pat, i + 1) <==> OccursAt(s[1..], pat, i)
  {
    if i + 1 + |pat| <= |s| {
      assert s[1..][i..i + |pat|] == s[i + 1..i + 1 + |pat|];
    }
  }

  /** Index of the first occurrence of `pat` in `s`, if any (`indexOf`). */
  function Find(s: string, pat: string): (r: Option<nat>)
    ensures r.Some? ==> OccursAt(s, pat, r.value)
    ensures r.Some? ==> forall i: nat :: i < r.value ==> !OccursAt(s, pat, i)
    ensures r.None? ==> forall i: nat :: !OccursAt(s, pat, i)
    decreases |s|
  {
    if |pat| > |s| then None
    else if s[..|pat|] == pat then Some(0)
    else
      var tail := Find(s[1..], pat);
      FindShift(s, pat, tail);
      match tail
      case None => None
      case Some(k) => Some(k + 1)
  }

  lemma FindShift(s: string, pat: string, tail: Option<nat>)
    requires |pat| <= |s| && s[..|pat|] != pat
    requires tail.Some? ==> OccursAt(s[1..], pat, tail.value)
    requires tail.Some? ==> forall i: nat :: i < tail.value ==> !OccursAt(s[1..], pat, i)
    requires tail.None? ==> forall i: nat :: !OccursAt(s[1..], pat, i)
    ensures tail.Some? ==> OccursAt(s, pat, tail.value + 1)
    ensures tail.Some? ==> forall i: nat :: i < tail.value + 1 ==> !OccursAt(s, pat, i)
    ensures tail.None? ==> forall i: nat :: !OccursAt(s, pat, i)
  {
    assert !OccursAt(s, pat, 0);
    forall i: nat | i >= 1
      ensures OccursAt(s, pat, i) <==> OccursAt(s[1..], pat, i - 1)
    {
      OccursAtShift(s, pat, i - 1);
    }
  }

  /** `s.replace(pat, rep)` with a plain-string pattern: only the first occurrence is replaced. */
  function ReplaceFirst(s: string, pat: string, rep: string): string {
    match Find(s, pat)
    case None => s
    case Some(i) => s[..i] + rep + s[i + |pat|..]
  }

  /** A single-label host name followed by a dotted suffix loses exactly the suffix. */
  lemma StripDomain(host: string, domain: string)
    requires |domain| > 0 && domain[0] == '.' && '.' !in host
    ensures ReplaceFirst(host + domain, domain, "") == host
  {
    var s := host + domain;
    assert OccursAt(s, domain, |host|) by {
      assert s[|host|..|host| + |domain|] == domain;
    }
    forall i: nat | i < |host|
      ensures !OccursAt(s, domain, i)
    {
      if i + |domain| <= |s| {
        assert s[i..i + |domain|][0] == host[i];
      }
    }
    assert s[..|host|] == host;
  }

  /** JavaScript `a < b` on strings: lexicographic order on characters. */
  predicate Less(a: string, b: string) {
    if a == [] then b != []
    else if b == [] then false
    else if a[0] != b[0] then a[0] < b[0]
    else Less(a[1..], b[1..])
  }

  lemma {:induction false} LessAsymmetric(a: string, b: string)
    ensures Less(a, b) ==> !Less(b, a)
  {
    if a != [] && b != [] && a[0] == b[0] {
      LessAsymmetric(a[1..], b[1..]);
    }
  }

  lemma {:induction false} LessTotal(a: string, b: string)
    ensures a != b ==> Less(a, b) || Less(b, a)
  {
    if a != [] && b != [] && a[0] == b[0] {
      LessTotal(a[1..], b[1..]);
      if a[1..] == b[1..] {
        assert a == [a[0]] + a[1..] && b == [b[0]] + b[1..];
      }
    }
  }
}
