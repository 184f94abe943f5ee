/**
 * The score index of the map component: every record is registered under its
 * upper-cased code (the last record with that code wins) and, when that code
 * is a known alpha-3 code, under the derived alpha-2 code too, unless that key
 * is already taken.
 */
module CountryIndex {
  import opened Text
  import opened IsoCodes
  import opened Records

  /** `(c.iso_code || '').toUpperCase()`; a null code is modelled as "". */
  function Code(c: CountrySummary): string {
    Upper(c.isoCode)
  }

  /**
   * One iteration of the index loop: it never removes a key, never makes ""
   * a key, and every entry it adds or replaces holds `c`.
   */
  function IndexStep(m: map<string, CountrySummary>, c: CountrySummary): (r: map<string, CountrySummary>)
    ensures forall k :: k in m ==> k in r
    ensures forall k :: k in r ==> (k in m && r[k] == m[k]) || r[k] == c
    ensures "" !in m ==> "" !in r
  {
    var iso := Code(c);
    if iso == "" then m
    else
      DerivedCodeNotEmpty(c);
      var m1 := m[iso := c];
      var iso2 := ToIso2(iso);
      if iso2 in m1 then m1 else m1[iso2 := c]
  }

  /**
   * The index the loop builds from `data`, processing records in order.
   * Records with an empty code are skipped, so "" is never a key, and every
   * value is one of the records.
   */
  function Index(data: seq<CountrySummary>): (r: map<string, CountrySummary>)
    ensures "" !in r
    ensures forall k :: k in r ==> r[k] in data
    decreases |data|
  {
    if data == [] then map[] else IndexStep(Index(data[..|data| - 1]), data[|data| - 1])
  }

  /** The `countryMap` loop: fills a mutable map record by record. */
  method BuildCountryMap(data: seq<CountrySummary>) returns (m: map<string, CountrySummary>)
    ensures m == Index(data)
    ensures "" !in m
    ensures forall k :: k in m ==> m[k] in data
  {
    m := map[];
    for i := 0 to |data|
      invariant m == Index(data[..i])
    {
      var c := data[i];
      var iso := Upper(c.isoCode);
      assert data[..i + 1][..i] == data[..i];
      if iso == "" {
        continue;
      }
      m := m[iso := c];
      var iso2 := ToIso2(iso);
      if iso2 !in m {
        m := m[iso2 := c];
      }
    }
    assert data[..|data|] == data;
  }

  /** `c` is registered under `k`: directly, or through its derived alpha-2 code. */
  predicate Registers(c: CountrySummary, k: string) {
    Code(c) != "" && (Code(c) == k || ToIso2(Code(c)) == k)
  }

  lemma DerivedCodeNotEmpty(c: CountrySummary)
    requires Code(c) != ""
    ensures ToIso2(Code(c)) != ""
  {
    UpperIdempotent(c.isoCode);
  }

  /** One step adds exactly the keys the record registers. */
  lemma StepDomain(m: map<string, CountrySummary>, c: CountrySummary, k: string)
    ensures k in IndexStep(m, c) <==> k in m || Registers(c, k)
  {
  }

  /** Some element satisfies `p` iff some element of the front does, or the last one does. */
  lemma ExistsSplitLast<T>(s: seq<T>, front: seq<T>, last: T, p: T -> bool)
    requires s == front + [last]
    ensures (exists i :: 0 <= i < |s| && p(s[i])) <==> (exists i :: 0 <= i < |front| && p(front[i])) || p(last)
  {
    if exists i :: 0 <= i < |s| && p(s[i]) {
      var i :| 0 <= i < |s| && p(s[i]);
      if i < |front| {
        assert p(front[i]);
      }
    }
    if exists i :: 0 <= i < |front| && p(front[i]) {
      var i :| 0 <= i < |front| && p(front[i]);
      assert p(s[i]);
    }
    if p(last) {
      assert p(s[|front|]);
    }
  }

  /** The keys of the index are exactly the codes some record registers. */
  lemma {:induction false} IndexDomain(data: seq<CountrySummary>, k: string)
    ensures k in Index(data) <==> exists i :: 0 <= i < |data| && Registers(data[i], k)
    decreases |data|
  {
    if data != [] {
      var n := |data| - 1;
      var prefix := data[..n];
      assert Index(data) == IndexStep(Index(prefix), data[n]);
      IndexDomain(prefix, k);
      StepDomain(Index(prefix), data[n], k);
      assert data == prefix + [data[n]];
      ExistsSplitLast(data, prefix, data[n], c => Registers(c, k));
    }
  }

  /** A record's own code maps to the last record carrying that code. */
  lemma {:induction false} IndexLastDirectWins(data: seq<CountrySummary>, i: nat)
    requires i < |data| && Code(data[i]) != ""
    requires forall j :: i < j < |data| ==> Code(data[j]) != Code(data[i])
    ensures Code(data[i]) in Index(data) && Index(data)[Code(data[i])] == data[i]
    decreases |data|
  {
    var n := |data| - 1;
    var prefix := data[..n];
    assert Index(data) == IndexStep(Index(prefix), data[n]);
    if i < n {
      assert prefix[i] == data[i];
      IndexLastDirectWins(prefix, i);
      StepKeepsOtherKey(Index(prefix), data[n], Code(data[i]));
    } else {
      StepSetsOwnCode(Index(prefix), data[n]);
    }
  }

  lemma StepSetsOwnCode(m: map<string, CountrySummary>, c: CountrySummary)
    requires Code(c) != ""
    ensures Code(c) in IndexStep(m, c) && IndexStep(m, c)[Code(c)] == c
  {
  }

  /**
   * A derived alpha-2 key that no record carries directly maps to the first
   * record deriving it: later derivations do not overwrite it.
   */
  lemma {:induction false} IndexFirstDerivedWins(data: seq<CountrySummary>, i: nat, k: string)
    requires i < |data| && Registers(data[i], k)
    requires forall j :: 0 <= j < |data| ==> Code(data[j]) != k
    requires forall j :: 0 <= j < i ==> !Registers(data[j], k)
    ensures k in Index(data) && Index(data)[k] == data[i]
    decreases |data|
  {
    var n := |data| - 1;
    var prefix := data[..n];
    assert Index(data) == IndexStep(Index(prefix), data[n]);
    if i < n {
      IndexFirstDerivedWins(prefix, i, k);
      StepKeepsOtherKey(Index(prefix), data[n], k);
    } else {
      IndexDomain(prefix, k);
      assert forall j :: 0 <= j < |prefix| ==> prefix[j] == data[j];
      StepAddsDerivedKey(Index(prefix), data[n], k);
    }
  }

  lemma StepKeepsOtherKey(m: map<string, CountrySummary>, c: CountrySummary, k: string)
    requires k in m && Code(c) != k
    ensures k in IndexStep(m, c) && IndexStep(m, c)[k] == m[k]
  {
  }

  lemma StepAddsDerivedKey(m: map<string, CountrySummary>, c: CountrySummary, k: string)
    requires Registers(c, k) && Code(c) != k && k !in m
    ensures k in IndexStep(m, c) && IndexStep(m, c)[k] == c
  {
  }

  /**
   * When the non-empty codes of the records are pairwise distinct, every
   * record with a code is found under that code.
   */
  lemma IndexFindsEveryRecord(data: seq<CountrySummary>)
    requires forall i, j :: 0 <= i < j < |data| && Code(data[i]) != "" ==> Code(data[i]) != Code(data[j])
    ensures forall i :: 0 <= i < |data| && Code(data[i]) != "" ==>
              Code(data[i]) in Index(data) && Index(data)[Code(data[i])] == data[i]
  {
    forall i | 0 <= i < |data| && Code(data[i]) != ""
      ensures Code(data[i]) in Index(data) && Index(data)[Code(data[i])] == data[i]
    {
      IndexLastDirectWins(data, i);
    }
  }

  /** The alpha-2 code derived from a record's known alpha-3 code is always a key of the index. */
  lemma IndexRegistersAlpha2(data: seq<CountrySummary>, i: nat)
    requires i < |data| && Alpha3ToAlpha2(Code(data[i])).Some?
    ensures Alpha3ToAlpha2(Code(data[i])).value in Index(data)
  {
    var k := Alpha3ToAlpha2(Code(data[i])).value;
    TablesHoldCodes(Code(data[i]));
    UpperIdempotent(data[i].isoCode);
    ToIso2MapsKnownAlpha3(Code(data[i]));
    assert Registers(data[i], k);
    IndexDomain(data, k);
  }
}
