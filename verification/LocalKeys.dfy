/** Naming a new local key: CreateLocalKey of internal/store/store.go. */
module LocalKeys {
  import opened Basics
  import opened Decimal
  import opened Text

  datatype LocalKey = LocalKey(name: string, key: string, note: string)

  function BaseName(name: string): string {
    var base := Trim(name, Spaces);
    if base == "" then "default" else base
  }

  /** The `n`-th name tried: the base, then base-2, base-3 and so on. */
  function Candidate(base: string, n: nat): string {
    if n == 0 then base else base + "-" + Itoa(n + 1)
  }

  ghost predicate Taken(rows: seq<LocalKey>, name: string) {
    exists i :: 0 <= i < |rows| && rows[i].name == name
  }

  function Names(rows: seq<LocalKey>): set<string> {
    set i | 0 <= i < |rows| :: rows[i].name
  }

  lemma {:induction false} FewerNames(rows: seq<LocalKey>)
    ensures |Names(rows)| <= |rows|
  {
    if rows != [] {
      var front, last := rows[..|rows| - 1], rows[|rows| - 1];
      FewerNames(front);
      assert Names(rows) == Names(front) + {last.name} by {
        assert forall i | 0 <= i < |front| :: front[i] == rows[i];
      }
    }
  }

  lemma NumberOf(base: string, n: nat)
    requires n != 0
    ensures |base| < |Candidate(base, n)| && Candidate(base, n)[|base| + 1..] == Itoa(n + 1)
  {
  }

  lemma CandidatesDistinct(base: string, m: nat, n: nat)
    requires m != n
    ensures Candidate(base, m) != Candidate(base, n)
  {
    if m != 0 && n != 0 && Candidate(base, m) == Candidate(base, n) {
      NumberOf(base, m);
      NumberOf(base, n);
      ItoaInjective(m + 1, n + 1);
    }
  }

  /** The names tried for a key named "x": x, x-2, x-3. */
  lemma FirstNames(name: string)
    ensures Trimmed(name, Spaces) && name != "" ==> BaseName(name) == name
    ensures (forall c | c in name :: IsSpace(c)) ==> BaseName(name) == "default"
    ensures Candidate(name, 0) == name && Candidate(name, 1) == name + "-2" && Candidate(name, 2) == name + "-3"
  {
    TrimExact(name, Spaces);
    if forall c | c in name :: IsSpace(c) {
      AllCut(name, Spaces);
    }
    assert DigitsOf(2) == "2" && DigitsOf(3) == "3";
  }

  function FirstCandidates(base: string, n: nat): set<string> {
    set i | 0 <= i < n :: Candidate(base, i)
  }

  lemma {:induction false} DifferentCandidates(base: string, n: nat)
    ensures |FirstCandidates(base, n)| == n
  {
    if n > 0 {
      DifferentCandidates(base, n - 1);
      assert Candidate(base, n - 1) !in FirstCandidates(base, n - 1) by {
        forall i | 0 <= i < n - 1
          ensures Candidate(base, i) != Candidate(base, n - 1)
        {
          CandidatesDistinct(base, i, n - 1);
        }
      }
      assert FirstCandidates(base, n) == FirstCandidates(base, n - 1) + {Candidate(base, n - 1)};
    }
  }

  lemma {:induction false} SubsetSmaller(a: set<string>, b: set<string>)
    requires a <= b
    ensures |a| <= |b|
  {
    if a != {} {
      var x :| x in a;
      SubsetSmaller(a - {x}, b - {x});
    }
  }

  /** The names are distinct, so a table cannot take more of them than it has rows. */
  lemma TakenAtMostRows(rows: seq<LocalKey>, base: string, n: nat)
    requires forall i | 0 <= i < n :: Taken(rows, Candidate(base, i))
    ensures n <= |rows|
  {
    DifferentCandidates(base, n);
    FewerNames(rows);
    forall name | name in FirstCandidates(base, n)
      ensures name in Names(rows)
    {
      var i :| 0 <= i < n && Candidate(base, i) == name;
      assert Taken(rows, Candidate(base, i));
    }
    SubsetSmaller(FirstCandidates(base, n), Names(rows));
  }

  /** The table's UNIQUE constraints. */
  ghost predicate Unique(rows: seq<LocalKey>) {
    forall i, j | 0 <= i < j < |rows| :: rows[i].name != rows[j].name && rows[i].key != rows[j].key
  }

  class Store {
    var localKeys: seq<LocalKey>

    constructor ()
      ensures localKeys == []
    {
      localKeys := [];
    }

    /** SELECT COUNT(*) FROM local_keys WHERE name. */
    method CountName(name: string) returns (count: nat)
      ensures count > 0 <==> Taken(localKeys, name)
    {
      count := 0;
      for i := 0 to |localKeys|
        invariant count > 0 <==> exists k :: 0 <= k < i && localKeys[k].name == name
      {
        if localKeys[i].name == name {
          count := count + 1;
        }
      }
    }

    /** The new row takes the first free name of the series, found after at most one try more than there are rows.
        The INSERT fails exactly when the key itself is there already: the name never violates its constraint. */
    method CreateLocalKey(name: string, key: string, note: string) returns (created: Option<LocalKey>, ghost tries: nat)
      requires Unique(localKeys)
      modifies this
      ensures Unique(localKeys)
      ensures 1 <= tries <= |old(localKeys)| + 1
      ensures
        var base := BaseName(name);
        var chosen := Candidate(base, tries - 1);
        && !Taken(old(localKeys), chosen)
        && (forall i | 0 <= i < tries - 1 :: Taken(old(localKeys), Candidate(base, i)))
        && created == (if exists i :: 0 <= i < |old(localKeys)| && old(localKeys)[i].key == key then None
                       else Some(LocalKey(chosen, key, note)))
      ensures localKeys == old(localKeys) + if created.Some? then [created.value] else []
    {
      var base := Trim(name, Spaces);
      if base == "" {
        base := "default";
      }
      var candidate := base;
      var i := 2;
      tries := 1;
      while true
        invariant i == tries + 1 && tries >= 1 && localKeys == old(localKeys)
        invariant candidate == Candidate(base, tries - 1)
        invariant forall k | 0 <= k < tries - 1 :: Taken(localKeys, Candidate(base, k))
        invariant tries <= |localKeys| + 1
        decreases |localKeys| + 1 - tries
      {
        var exists_ := CountName(candidate);
        if exists_ == 0 {
          break;
        }
        TakenAtMostRows(localKeys, base, tries);
        candidate := base + "-" + Itoa(i);
        i := i + 1;
        tries := tries + 1;
      }
      if exists k :: 0 <= k < |localKeys| && localKeys[k].key == key {
        return None, tries;
      }
      var row := LocalKey(candidate, key, note);
      localKeys := localKeys + [row];
      return Some(row), tries;
    }
  }
}
