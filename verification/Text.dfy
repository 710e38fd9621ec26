/** The string operations the services share. */
module Text {

  predicate IsBlank(c: char) {
    c == ' ' || c == '\t' || c == '\n' || c == '\r'
  }

  predicate Trimmed(s: string) {
    s != [] && !IsBlank(s[0]) && !IsBlank(s[|s| - 1])
  }

  function Trim(s: string): (r: string)
    ensures r == [] || Trimmed(r)
    ensures Trimmed(s) ==> r == s
    ensures forall c | c in r :: c in s
    decreases |s|
  {
    if s == [] then []
    else if IsBlank(s[0]) then Trim(s[1..])
    else if IsBlank(s[|s| - 1]) then Trim(s[..|s| - 1])
    else s
  }

  lemma {:induction false} TrimOuter(s: string) returns (lo: nat, hi: nat)
    ensures lo <= hi <= |s| && Trim(s) == s[lo..hi]
    ensures forall i | 0 <= i < lo || hi <= i < |s| :: IsBlank(s[i])
    ensures lo < hi ==> !IsBlank(s[lo]) && !IsBlank(s[hi - 1])
    decreases |s|
  {
    if s == [] {
      lo, hi := 0, 0;
    } else if IsBlank(s[0]) {
      var tail := s[1..];
      var l, h := TrimOuter(tail);
      lo, hi := l + 1, h + 1;
      assert forall i | 0 < i < |s| :: s[i] == tail[i - 1];
      assert s[lo..hi] == tail[l..h];
    } else if IsBlank(s[|s| - 1]) {
      var init := s[..|s| - 1];
      lo, hi := TrimOuter(init);
      assert forall i | 0 <= i < |init| :: s[i] == init[i];
      assert s[lo..hi] == init[lo..hi];
    } else {
      lo, hi := 0, |s|;
    }
  }

  /** Trimming drops the blanks at both ends, which are spaces, tabs, line feeds and carriage
      returns, and nothing else. */
  lemma TrimExact(s: string) returns (lo: nat, hi: nat)
    ensures lo <= hi <= |s| && Trim(s) == s[lo..hi]
    ensures var blank := (c: char) => c == ' ' || c == '\t' || c == '\n' || c == '\r';
            && (forall i | 0 <= i < lo || hi <= i < |s| :: blank(s[i]))
            && (lo < hi ==> !blank(s[lo]) && !blank(s[hi - 1]))
  {
    lo, hi := TrimOuter(s);
  }

  /** The pieces between the separators; one more than there are separators. */
  function Split(s: string, sep: char): (r: seq<string>)
    ensures r != []
    ensures forall p | p in r :: sep !in p
  {
    if s == [] then [""]
    else
      var rest := Split(s[1..], sep);
      if s[0] == sep then [""] + rest else [[s[0]] + rest[0]] + rest[1..]
  }

  function Join(parts: seq<string>, sep: char): string {
    if parts == [] then ""
    else if |parts| == 1 then parts[0]
    else parts[0] + [sep] + Join(parts[1..], sep)
  }

  lemma {:induction false} SplitPlain(s: string, sep: char)
    requires sep !in s
    ensures Split(s, sep) == [s]
  {
    if s == [] {
    } else {
      SplitPlain(s[1..], sep);
      assert s == [s[0]] + s[1..];
    }
  }

  lemma {:induction false} SplitAtSeparator(p: string, rest: string, sep: char)
    requires sep !in p
    ensures Split(p + [sep] + rest, sep) == [p] + Split(rest, sep)
  {
    var s := p + [sep] + rest;
    if p == [] {
      assert s[1..] == rest;
    } else {
      assert s[1..] == p[1..] + [sep] + rest;
      SplitAtSeparator(p[1..], rest, sep);
      assert s[0] == p[0] && p == [p[0]] + p[1..];
      assert ([p[1..]] + Split(rest, sep))[1..] == Split(rest, sep);
    }
  }

  /** Splitting undoes joining, for parts without the separator. */
  lemma {:induction false} SplitJoin(parts: seq<string>, sep: char)
    requires parts != [] && forall p | p in parts :: sep !in p
    ensures Split(Join(parts, sep), sep) == parts
  {
    if |parts| == 1 {
      SplitPlain(parts[0], sep);
    } else {
      SplitJoin(parts[1..], sep);
      SplitAtSeparator(parts[0], Join(parts[1..], sep), sep);
    }
  }

  lemma JoinHead(part: string, rest: seq<string>, c: char, sep: char)
    ensures Join([[c] + part] + rest, sep) == [c] + Join([part] + rest, sep)
  {
    var a, b := [[c] + part] + rest, [part] + rest;
    assert a[1..] == b[1..];
    if rest != [] {
      assert Join(a, sep) == [c] + part + [sep] + Join(rest, sep);
    }
  }

  /** Joining undoes splitting. */
  lemma {:induction false} JoinSplit(s: string, sep: char)
    ensures Join(Split(s, sep), sep) == s
  {
    if s != [] {
      var rest := Split(s[1..], sep);
      JoinSplit(s[1..], sep);
      if s[0] == sep {
        assert ([""] + rest)[1..] == rest;
      } else {
        JoinHead(rest[0], rest[1..], s[0], sep);
        assert rest == [rest[0]] + rest[1..];
      }
    }
  }

  /** Code-unit order. */
  predicate AtMost(a: string, b: string) {
    a == [] || (b != [] && (a[0] < b[0] || (a[0] == b[0] && AtMost(a[1..], b[1..]))))
  }

  /** The first difference is at k, and a is the smaller one there. */
  ghost predicate SmallerAt(a: string, b: string, k: nat) {
    k < |a| && k < |b| && a[k] < b[k] && forall i | 0 <= i < k :: a[i] == b[i]
  }

  lemma SmallerLater(a: string, b: string, k: nat)
    requires a != [] && b != [] && a[0] == b[0]
    ensures SmallerAt(a, b, k + 1) <==> SmallerAt(a[1..], b[1..], k)
  {
    if SmallerAt(a, b, k + 1) {
      assert forall i | 0 <= i < k :: a[1..][i] == a[i + 1] && b[1..][i] == b[i + 1];
    }
    if SmallerAt(a[1..], b[1..], k) {
      forall i | 0 <= i < k + 1 ensures a[i] == b[i] {
        if i > 0 {
          assert a[1..][i - 1] == b[1..][i - 1];
        }
      }
    }
  }

  lemma PrefixLater(a: string, b: string)
    requires a != [] && b != [] && a[0] == b[0]
    ensures a <= b <==> a[1..] <= b[1..]
  {
    assert a == [a[0]] + a[1..] && b == [b[0]] + b[1..];
    if a[1..] <= b[1..] {
      assert b == a + b[|a|..];
    }
  }

  /** A prefix, or smaller where the two first differ. */
  lemma {:induction false} AtMostExact(a: string, b: string)
    ensures AtMost(a, b) <==> a <= b || exists k :: SmallerAt(a, b, k)
  {
    if a != [] && b != [] && a[0] == b[0] {
      AtMostExact(a[1..], b[1..]);
      PrefixLater(a, b);
      if k: nat :| SmallerAt(a[1..], b[1..], k) {
        SmallerLater(a, b, k);
      }
      if k: nat :| SmallerAt(a, b, k) {
        SmallerLater(a, b, k - 1);
      }
    } else if a != [] && b != [] {
      assert a[0] < b[0] ==> SmallerAt(a, b, 0);
      assert !(a <= b);
    }
  }

  lemma {:induction false} AtMostTotal(a: string, b: string)
    ensures AtMost(a, b) || AtMost(b, a)
  {
    if a != [] && b != [] && a[0] == b[0] {
      AtMostTotal(a[1..], b[1..]);
    }
  }

  lemma {:induction false} AtMostAntisymmetric(a: string, b: string)
    requires AtMost(a, b) && AtMost(b, a)
    ensures a == b
  {
    if a != [] {
      AtMostAntisymmetric(a[1..], b[1..]);
      assert a == [a[0]] + a[1..] && b == [b[0]] + b[1..];
    }
  }

  lemma {:induction false} AtMostTransitive(a: string, b: string, c: string)
    requires AtMost(a, b) && AtMost(b, c)
    ensures AtMost(a, c)
  {
    if a != [] && a[0] == b[0] == c[0] {
      AtMostTransitive(a[1..], b[1..], c[1..]);
    }
  }

  function Digit(d: nat): char
    requires d < 10
  {
    "0123456789"[d]
  }

  function Digits(n: nat): (s: string)
    ensures s != [] && forall c | c in s :: '0' <= c <= '9'
  {
    if n < 10 then [Digit(n)] else Digits(n / 10) + [Digit(n % 10)]
  }

  /** What a string of decimal digits denotes. */
  function ReadDigits(s: string): int {
    if s == [] then 0 else ReadDigits(s[..|s| - 1]) * 10 + (s[|s| - 1] as int - '0' as int)
  }

  lemma {:induction false} DigitsReadBack(n: nat)
    ensures ReadDigits(Digits(n)) == n
  {
    if n < 10 {
      assert Digits(n)[..0] == [];
    } else {
      DigitsReadBack(n / 10);
      assert Digits(n)[..|Digits(n)| - 1] == Digits(n / 10);
    }
  }

  /** Different numbers print differently. */
  lemma DigitsInjective(m: nat, n: nat)
    requires Digits(m) == Digits(n)
    ensures m == n
  {
    DigitsReadBack(m);
    DigitsReadBack(n);
  }
}
