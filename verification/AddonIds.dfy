/** The canonical form of a list of add-on ids, which may arrive as repeated values, as
    comma-separated values, or both. */
module AddonIds {
  import opened Text

  /** What one raw value contributes: its non-empty trimmed pieces. */
  function NonEmpty(pieces: seq<string>): seq<string> {
    if pieces == [] then []
    else
      var rest := NonEmpty(pieces[1..]);
      if Trim(pieces[0]) == "" then rest else [Trim(pieces[0])] + rest
  }

  function Parts(raw: seq<string>): seq<string> {
    if raw == [] then [] else NonEmpty(Split(raw[0], ',')) + Parts(raw[1..])
  }

  /** The distinct members in order of first appearance. */
  function Distinct(s: seq<string>): (r: seq<string>)
    ensures forall x :: x in r <==> x in s
  {
    if s == [] then []
    else
      var init := Distinct(s[..|s| - 1]);
      if s[|s| - 1] in init then init else init + [s[|s| - 1]]
  }

  function Insert(x: string, s: seq<string>): (r: seq<string>)
    ensures forall y :: y in r <==> y == x || y in s
  {
    if s == [] || AtMost(x, s[0]) then [x] + s else [s[0]] + Insert(x, s[1..])
  }

  function Sort(s: seq<string>): (r: seq<string>)
    ensures forall y :: y in r <==> y in s
  {
    if s == [] then [] else Insert(s[0], Sort(s[1..]))
  }

  function NormalizeAddonIds(raw: seq<string>): seq<string> {
    Sort(Distinct(Parts(raw)))
  }

  /** An id as it comes out of the normal form. */
  predicate IsAddonId(x: string) {
    Trimmed(x) && ',' !in x
  }

  ghost predicate Ascending(s: seq<string>) {
    forall i, j | 0 <= i < j < |s| :: AtMost(s[i], s[j]) && s[i] != s[j]
  }

  lemma {:induction false} InsertAscends(x: string, s: seq<string>)
    requires Ascending(s) && x !in s
    ensures Ascending(Insert(x, s))
  {
    if s == [] {
    } else if AtMost(x, s[0]) {
      forall j | 0 <= j < |s| ensures AtMost(x, s[j]) {
        if j > 0 { AtMostTransitive(x, s[0], s[j]); }
      }
    } else {
      AtMostTotal(x, s[0]);
      InsertAscends(x, s[1..]);
      var t := Insert(x, s[1..]);
      forall y | y in t ensures AtMost(s[0], y) && s[0] != y {
        if y != x {
          var j :| 0 <= j < |s[1..]| && s[1..][j] == y;
          assert s[j + 1] == y;
        }
      }
    }
  }

  lemma {:induction false} SortAscends(s: seq<string>)
    requires forall i, j | 0 <= i < j < |s| :: s[i] != s[j]
    ensures Ascending(Sort(s))
  {
    if s != [] {
      SortAscends(s[1..]);
      assert s[0] !in s[1..];
      InsertAscends(s[0], Sort(s[1..]));
    }
  }

  lemma {:induction false} DistinctIsDistinct(s: seq<string>)
    ensures forall i, j | 0 <= i < j < |Distinct(s)| :: Distinct(s)[i] != Distinct(s)[j]
  {
    if s != [] {
      DistinctIsDistinct(s[..|s| - 1]);
    }
  }

  lemma {:induction false} PiecesBecomeIds(pieces: seq<string>)
    requires forall p | p in pieces :: ',' !in p
    ensures forall x | x in NonEmpty(pieces) :: IsAddonId(x)
  {
    if pieces == [] {
    } else {
      assert pieces[0] in pieces;
      PiecesBecomeIds(pieces[1..]);
    }
  }

  lemma {:induction false} PartsAreIds(raw: seq<string>)
    ensures forall x | x in Parts(raw) :: IsAddonId(x)
  {
    if raw != [] {
      PartsAreIds(raw[1..]);
      PiecesBecomeIds(Split(raw[0], ','));
    }
  }

  lemma {:induction false} NonEmptyExact(pieces: seq<string>, x: string)
    ensures x in NonEmpty(pieces) <==> x != "" && exists p :: p in pieces && Trim(p) == x
  {
    if pieces != [] {
      NonEmptyExact(pieces[1..], x);
      assert pieces == [pieces[0]] + pieces[1..];
      if p :| p in pieces && Trim(p) == x {
        assert p == pieces[0] || p in pieces[1..];
      }
    }
  }

  ghost predicate Names(value: string, x: string) {
    exists p :: p in Split(value, ',') && Trim(p) == x
  }

  /** The ids asked for are the non-empty trimmed pieces between the commas of all values. */
  lemma {:induction false} PartsExact(raw: seq<string>, x: string)
    ensures x in Parts(raw) <==> x != "" && exists value :: value in raw && Names(value, x)
  {
    if raw != [] {
      NonEmptyExact(Split(raw[0], ','), x);
      PartsExact(raw[1..], x);
      assert raw == [raw[0]] + raw[1..];
      assert x != "" && Names(raw[0], x) <==> x in NonEmpty(Split(raw[0], ','));
      if value :| value in raw && Names(value, x) {
        assert value == raw[0] || value in raw[1..];
      }
    }
  }

  lemma BothEmpty(a: seq<string>, b: seq<string>)
    requires forall x :: x in a <==> x in b
    ensures a == [] ==> b == []
  {
    if b != [] {
      assert b[0] in b && b[0] in a;
    }
  }

  lemma SameTail(a: seq<string>, b: seq<string>)
    requires a != [] && b != [] && a[0] == b[0] && a[0] !in a[1..] && b[0] !in b[1..]
    requires forall x :: x in a <==> x in b
    ensures forall x :: x in a[1..] <==> x in b[1..]
  {
    assert a == [a[0]] + a[1..] && b == [b[0]] + b[1..];
    forall x ensures x in a[1..] <==> x in b[1..] {
      assert x in a <==> x == a[0] || x in a[1..];
      assert x in b <==> x == b[0] || x in b[1..];
    }
  }

  /** An ascending list is determined by its members. */
  lemma {:induction false} AscendingIsCanonical(a: seq<string>, b: seq<string>)
    requires Ascending(a) && Ascending(b) && forall x :: x in a <==> x in b
    ensures a == b
  {
    BothEmpty(a, b);
    BothEmpty(b, a);
    if a == [] {
    } else {
      assert a[0] in b && b[0] in a;
      var i :| 0 <= i < |b| && b[i] == a[0];
      var j :| 0 <= j < |a| && a[j] == b[0];
      if i > 0 && j > 0 {
        AtMostAntisymmetric(a[0], b[0]);
      }
      assert a[0] == b[0];
      SameTail(a, b);
      AscendingIsCanonical(a[1..], b[1..]);
    }
  }

  /** The normal form: ascending without repeats, of clean ids, with the given parts. */
  lemma NormalForm(raw: seq<string>)
    ensures Ascending(NormalizeAddonIds(raw))
    ensures forall x :: x in NormalizeAddonIds(raw) <==> x in Parts(raw)
    ensures forall x | x in NormalizeAddonIds(raw) :: IsAddonId(x)
  {
    DistinctIsDistinct(Parts(raw));
    SortAscends(Distinct(Parts(raw)));
    PartsAreIds(raw);
  }

  /** Two ways of writing the same choice. */
  ghost predicate SameChoice(raw: seq<string>, other: seq<string>) {
    forall x :: x in Parts(raw) <==> x in Parts(other)
  }

  /** Order, repeats and the way of writing the list do not matter. */
  lemma OnlyMembersMatter(raw: seq<string>, other: seq<string>)
    requires SameChoice(raw, other)
    ensures NormalizeAddonIds(raw) == NormalizeAddonIds(other)
  {
    NormalForm(raw);
    NormalForm(other);
    AscendingIsCanonical(NormalizeAddonIds(raw), NormalizeAddonIds(other));
  }

  lemma {:induction false} PartsOfIds(ids: seq<string>)
    requires forall x | x in ids :: IsAddonId(x)
    ensures Parts(ids) == ids
  {
    if ids == [] {
    } else {
      assert ids[0] in ids && ids == [ids[0]] + ids[1..];
      SplitPlain(ids[0], ',');
      PiecesOfIds([ids[0]]);
      PartsOfIds(ids[1..]);
    }
  }

  /** Normalizing again, at the controller, in create or in the profile, changes nothing. */
  lemma NormalizeTwice(raw: seq<string>)
    ensures NormalizeAddonIds(NormalizeAddonIds(raw)) == NormalizeAddonIds(raw)
  {
    var ids := NormalizeAddonIds(raw);
    NormalForm(raw);
    PartsOfIds(ids);
    NormalForm(ids);
    AscendingIsCanonical(NormalizeAddonIds(ids), ids);
  }

  /** Writing the normal form as one comma-separated value loses nothing. */
  lemma JoinedFormReadsBack(raw: seq<string>)
    ensures NormalizeAddonIds([Join(NormalizeAddonIds(raw), ',')]) == NormalizeAddonIds(raw)
  {
    var ids := NormalizeAddonIds(raw);
    NormalForm(raw);
    if ids == [] {
      assert Split("", ',') == [""];
      assert Parts([""]) == [];
    } else {
      SplitJoin(ids, ',');
      PiecesOfIds(ids);
      assert Parts([Join(ids, ',')]) == ids + [];
      NormalForm([Join(ids, ',')]);
      AscendingIsCanonical(NormalizeAddonIds([Join(ids, ',')]), ids);
    }
  }

  lemma {:induction false} PiecesOfIds(ids: seq<string>)
    requires forall x | x in ids :: IsAddonId(x)
    ensures NonEmpty(ids) == ids
  {
    if ids == [] {
    } else {
      assert ids[0] in ids && ids == [ids[0]] + ids[1..];
      PiecesOfIds(ids[1..]);
    }
  }
}
