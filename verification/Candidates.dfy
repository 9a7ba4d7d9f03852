/** Candidate chains and their stable deduplication. */
module Candidates {
  import opened Strings

  /** A registered adapter: its `ID()` and which adapter object it is. */
  datatype Provider = Provider(id: string, adapter: nat)

  datatype Tier = Primary | PolicyFallback | Fast | Smart | Fallback

  datatype Candidate = Candidate(provider: Provider, providerId: string, model: string, tier: Tier)
  {
    function Key(): string {
      providerId + ":" + model
    }

    predicate Same(d: Candidate) {
      providerId == d.providerId && model == d.model
    }
  }

  ghost predicate HasKey(list: seq<Candidate>, key: string) {
    exists j :: 0 <= j < |list| && list[j].Key() == key
  }

  // ----- what a stable deduplication is -----

  ghost predicate Increasing(at: seq<nat>, n: nat) {
    && (forall i, j :: 0 <= i < j < |at| ==> at[i] < at[j])
    && (forall i :: 0 <= i < |at| ==> at[i] < n)
  }

  ghost predicate First(list: seq<Candidate>, j: nat) {
    j < |list| && forall i :: 0 <= i < j ==> list[i].Key() != list[j].Key()
  }

  /** `res` is the subsequence of `list` at the positions `at`, all first occurrences, missing no key. */
  ghost predicate StableAt(list: seq<Candidate>, at: seq<nat>, res: seq<Candidate>) {
    && |at| == |res|
    && Increasing(at, |list|)
    && (forall k :: 0 <= k < |at| ==> res[k] == list[at[k]] && First(list, at[k]))
    && (forall j :: 0 <= j < |list| ==> HasKey(res, list[j].Key()))
  }

  ghost predicate IsStableDedup(list: seq<Candidate>, res: seq<Candidate>) {
    exists at :: StableAt(list, at, res)
  }

  ghost predicate DistinctKeys(list: seq<Candidate>) {
    forall i, j :: 0 <= i < j < |list| ==> list[i].Key() != list[j].Key()
  }

  // ----- the deduplication loop -----

  ghost function Dedup(list: seq<Candidate>): seq<Candidate> {
    if list == [] then []
    else
      var n := |list| - 1;
      if HasKey(list[..n], list[n].Key()) then Dedup(list[..n]) else Dedup(list[..n]) + [list[n]]
  }

  method DeduplicateCandidates(list: seq<Candidate>) returns (res: seq<Candidate>)
    ensures res == Dedup(list)
    ensures IsStableDedup(list, res)
  {
    var seen: set<string> := {};
    res := [];
    for i := 0 to |list|
      invariant res == Dedup(list[..i])
      invariant forall k :: k in seen <==> HasKey(list[..i], k)
    {
      var c := list[i];
      assert list[..i + 1][..i] == list[..i];
      SeenGrows(list[..i], c);
      assert list[..i + 1] == list[..i] + [c];
      if c.Key() !in seen {
        seen := seen + {c.Key()};
        res := res + [c];
      }
    }
    assert list[..|list|] == list;
    var _ := DedupIsStable(list);
  }

  lemma SeenGrows(list: seq<Candidate>, c: Candidate)
    ensures forall k :: HasKey(list + [c], k) <==> HasKey(list, k) || k == c.Key()
  {
    forall k ensures HasKey(list + [c], k) <==> HasKey(list, k) || k == c.Key() {
      assert (list + [c])[|list|] == c;
      if HasKey(list, k) {
        var j :| 0 <= j < |list| && list[j].Key() == k;
        assert (list + [c])[j].Key() == k;
      }
    }
  }

  /** The loop's result is a stable deduplication, and these are its positions. */
  lemma {:induction false} DedupIsStable(list: seq<Candidate>) returns (at: seq<nat>)
    ensures StableAt(list, at, Dedup(list))
  {
    if list == [] {
      at := [];
    } else {
      var n := |list| - 1;
      at := DedupIsStable(list[..n]);
      StableSnoc(list[..n], list[n], at, Dedup(list[..n]));
      assert list == list[..n] + [list[n]];
      if !HasKey(list[..n], list[n].Key()) {
        at := at + [n];
      }
    }
  }

  lemma StableSnoc(list: seq<Candidate>, c: Candidate, at: seq<nat>, res: seq<Candidate>)
    requires StableAt(list, at, res)
    ensures HasKey(list, c.Key()) ==> StableAt(list + [c], at, res)
    ensures !HasKey(list, c.Key()) ==> StableAt(list + [c], at + [|list|], res + [c])
  {
    PicksStay(list, c, at, res);
    if HasKey(list, c.Key()) {
      CoversKnown(list, c, res);
    } else {
      FirstSnoc(list, c);
      CoversNew(list, c, res);
    }
  }

  lemma PicksStay(list: seq<Candidate>, c: Candidate, at: seq<nat>, res: seq<Candidate>)
    requires |at| == |res| && Increasing(at, |list|)
    requires forall k :: 0 <= k < |at| ==> res[k] == list[at[k]] && First(list, at[k])
    ensures Increasing(at, |list + [c]|) && Increasing(at + [|list|], |list + [c]|)
    ensures forall k :: 0 <= k < |at| ==> res[k] == (list + [c])[at[k]] && First(list + [c], at[k])
  {
  }

  lemma FirstSnoc(list: seq<Candidate>, c: Candidate)
    requires !HasKey(list, c.Key())
    ensures First(list + [c], |list|)
  {
  }

  lemma CoversKnown(list: seq<Candidate>, c: Candidate, res: seq<Candidate>)
    requires forall j :: 0 <= j < |list| ==> HasKey(res, list[j].Key())
    requires HasKey(list, c.Key())
    ensures forall j :: 0 <= j < |list + [c]| ==> HasKey(res, (list + [c])[j].Key())
  {
    var j :| 0 <= j < |list| && list[j].Key() == c.Key();
    assert HasKey(res, list[j].Key());
  }

  lemma CoversNew(list: seq<Candidate>, c: Candidate, res: seq<Candidate>)
    requires forall j :: 0 <= j < |list| ==> HasKey(res, list[j].Key())
    ensures forall j :: 0 <= j < |list + [c]| ==> HasKey(res + [c], (list + [c])[j].Key())
  {
    SeenGrows(res, c);
  }

  /** Nothing else is one: equal inputs have equal stable deduplications. */
  lemma StableDedupUnique(list: seq<Candidate>, res: seq<Candidate>)
    requires IsStableDedup(list, res)
    ensures res == Dedup(list)
  {
    var at :| StableAt(list, at, res);
    var bt := DedupIsStable(list);
    SamePositions(list, at, res, bt, Dedup(list));
    SamePositions(list, bt, Dedup(list), at, res);
    IncreasingUnique(at, bt, |list|);
  }

  lemma SamePositions(list: seq<Candidate>, at: seq<nat>, res: seq<Candidate>, bt: seq<nat>, other: seq<Candidate>)
    requires StableAt(list, at, res) && StableAt(list, bt, other)
    ensures forall x :: x in at ==> x in bt
  {
    forall x | x in at ensures x in bt {
      var k :| 0 <= k < |at| && at[k] == x;
      assert HasKey(other, list[x].Key());
      var m :| 0 <= m < |other| && other[m].Key() == list[x].Key();
      assert First(list, x) && First(list, bt[m]);
      assert bt[m] == x;
    }
  }

  lemma HeadIsMember(s: seq<nat>)
    ensures s == [] || s[0] in s
  {
  }

  lemma {:induction false} IncreasingUnique(a: seq<nat>, b: seq<nat>, n: nat)
    requires Increasing(a, n) && Increasing(b, n)
    requires forall x :: x in a <==> x in b
    ensures a == b
  {
    HeadIsMember(a);
    HeadIsMember(b);
    if a != [] {
      var x, y := |a| - 1, |b| - 1;
      assert a[x] in b && b[y] in a;
      assert a[x] == b[y];
      forall z ensures z in a[..x] <==> z in b[..y] {
        assert z in a[..x] <==> z in a && z != a[x];
        assert z in b[..y] <==> z in b && z != b[y];
      }
      IncreasingUnique(a[..x], b[..y], n);
      assert a == a[..x] + [a[x]] && b == b[..y] + [b[y]];
    }
  }

  // ----- what follows from it -----

  /** No key twice, and the same keys as before. */
  lemma DedupKeys(list: seq<Candidate>)
    ensures DistinctKeys(Dedup(list))
    ensures forall k :: HasKey(Dedup(list), k) <==> HasKey(list, k)
    ensures forall c :: c in Dedup(list) ==> c in list
  {
    var res := Dedup(list);
    var at := DedupIsStable(list);
    forall i, j | 0 <= i < j < |res| ensures res[i].Key() != res[j].Key() {
      assert First(list, at[j]) && at[i] < at[j];
    }
    forall k ensures HasKey(res, k) <==> HasKey(list, k) {
      if HasKey(res, k) {
        var m :| 0 <= m < |res| && res[m].Key() == k;
        assert list[at[m]].Key() == k;
      }
    }
  }

  lemma DedupKeepsHead(list: seq<Candidate>)
    requires list != []
    ensures Dedup(list) != [] && Dedup(list)[0] == list[0]
  {
    var res := Dedup(list);
    var at := DedupIsStable(list);
    assert HasKey(res, list[0].Key());
    var k :| 0 <= k < |res| && res[k].Key() == list[0].Key();
    assert at[0] <= at[k];
    assert First(list, at[k]);
  }

  lemma DedupIdempotent(list: seq<Candidate>)
    ensures Dedup(Dedup(list)) == Dedup(list)
    ensures Dedup(list) == list <==> DistinctKeys(list)
  {
    DedupKeys(list);
    DistinctIsStable(Dedup(list));
    if DistinctKeys(list) {
      DistinctIsStable(list);
    }
  }

  lemma DistinctIsStable(list: seq<Candidate>)
    requires DistinctKeys(list)
    ensures Dedup(list) == list
  {
    var at := seq(|list|, (i: nat) => i);
    assert StableAt(list, at, list);
    StableDedupUnique(list, list);
  }

  /** `list` without the candidates under `key`. */
  function Without(list: seq<Candidate>, key: string): seq<Candidate> {
    if list == [] then []
    else
      var n := |list| - 1;
      Without(list[..n], key) + (if list[n].Key() == key then [] else [list[n]])
  }

  /** Putting one candidate in front of a duplicate-free chain only removes its own duplicate. */
  lemma {:induction false} DedupLead(c: Candidate, list: seq<Candidate>)
    requires DistinctKeys(list)
    ensures Dedup([c] + list) == [c] + Without(list, c.Key())
  {
    var more := [c] + list;
    if list == [] {
      assert more == [c] && more[..0] == [];
    } else {
      var n := |list| - 1;
      DedupLead(c, list[..n]);
      assert more[..n + 1] == [c] + list[..n] && more[n + 1] == list[n];
      LeadHasKey(c, list);
    }
  }

  lemma LeadHasKey(c: Candidate, list: seq<Candidate>)
    requires DistinctKeys(list) && list != []
    ensures var n := |list| - 1; HasKey([c] + list[..n], list[n].Key()) <==> list[n].Key() == c.Key()
  {
    var n := |list| - 1;
    var more := [c] + list[..n];
    assert more[0] == c;
    assert forall j :: 0 < j < |more| ==> more[j] == list[j - 1];
  }

  // ----- when a key stands for (provider, model) -----

  /** Two provider ids can produce one key exactly when one id is the other extended after a colon. */
  lemma KeysCollideExactly(a: string, b: string)
    ensures (exists x, y :: a + ":" + x == b + ":" + y && (a, x) != (b, y)) <==> a + ":" <= b || b + ":" <= a
  {
    if x, y :| a + ":" + x == b + ":" + y && (a, x) != (b, y) {
      CollidingIds(a, x, b, y);
    }
    if a + ":" <= b {
      CollidingModels(a, b);
    }
    if b + ":" <= a {
      CollidingModels(b, a);
      assert b + ":" + (a[|b| + 1..] + ":") == a + ":" + "";
    }
  }

  lemma CollidingIds(a: string, x: string, b: string, y: string)
    requires a + ":" + x == b + ":" + y && (a, x) != (b, y)
    ensures a + ":" <= b || b + ":" <= a
  {
    var s, t := a + ":" + x, b + ":" + y;
    assert s[..|a|] == a && t[..|b|] == b && s[|a| + 1..] == x && t[|b| + 1..] == y;
    assert s[|a|] == ':' && t[|b|] == ':';
    if |a| < |b| {
      assert s[..|a| + 1] == a + ":";
      assert t[..|b|][..|a| + 1] == t[..|a| + 1];
    } else if |b| < |a| {
      assert t[..|b| + 1] == b + ":";
      assert s[..|a|][..|b| + 1] == s[..|b| + 1];
    }
  }

  lemma CollidingModels(a: string, b: string)
    requires a + ":" <= b
    ensures a != b && a + ":" + (b[|a| + 1..] + ":") == b + ":" + ""
  {
    assert b == a + ":" + b[|a| + 1..];
  }

  /** The key of a candidate without any colon splits in one way only. */
  lemma SingleColonKey(c: Candidate, d: Candidate)
    requires ':' !in c.providerId && ':' !in c.model
    ensures c.Key() == d.Key() ==> ':' !in d.providerId
  {
    if c.Key() == d.Key() {
      var s, t := c.Key(), d.Key();
      assert t[|d.providerId|] == ':';
      assert forall i :: 0 <= i < |s| && i != |c.providerId| ==> s[i] in c.providerId || s[i] in c.model;
      assert |c.providerId| == |d.providerId|;
      assert s[..|c.providerId|] == c.providerId && t[..|d.providerId|] == d.providerId;
    }
  }

  /** Of two provider ids without colons, or beside a candidate without any colon, the key tells provider and model. */
  lemma ColonFreeKey(c: Candidate, d: Candidate)
    requires ':' !in c.providerId && (':' !in d.providerId || ':' !in c.model)
    ensures c.Key() == d.Key() <==> c.Same(d)
  {
    if c.Key() == d.Key() {
      if ':' !in c.model {
        SingleColonKey(c, d);
      }
      SplitAtFirst(c.providerId, d.providerId, c.model, d.model, ':');
    }
  }

  ghost predicate ColonFreeIds(list: seq<Candidate>) {
    forall c :: c in list ==> ':' !in c.providerId
  }

  ghost predicate Lists(list: seq<Candidate>, providerId: string, model: string) {
    exists c :: c in list && c.providerId == providerId && c.model == model
  }

  /**
   * With provider ids without colons, deduplication is by provider and model, whatever the models
   * hold: the same pairs are listed as before, each by exactly one candidate.
   */
  lemma DedupIsByProviderAndModel(list: seq<Candidate>)
    requires ColonFreeIds(list)
    ensures forall id, model :: Lists(Dedup(list), id, model) <==> Lists(list, id, model)
    ensures forall i, j :: 0 <= i < j < |Dedup(list)| ==> !Dedup(list)[i].Same(Dedup(list)[j])
  {
    DedupKeys(list);
    forall id, model ensures Lists(Dedup(list), id, model) <==> Lists(list, id, model) {
      if Lists(list, id, model) {
        DedupListsPair(list, id, model);
      }
    }
    forall i, j | 0 <= i < j < |Dedup(list)| ensures !Dedup(list)[i].Same(Dedup(list)[j]) {
      assert Dedup(list)[i].Key() != Dedup(list)[j].Key();
    }
  }

  lemma DedupListsPair(list: seq<Candidate>, id: string, model: string)
    requires ColonFreeIds(list) && Lists(list, id, model)
    ensures Lists(Dedup(list), id, model)
  {
    var c :| c in list && c.providerId == id && c.model == model;
    var j :| 0 <= j < |list| && list[j] == c;
    DedupKeys(list);
    assert HasKey(list, c.Key());
    var k :| 0 <= k < |Dedup(list)| && Dedup(list)[k].Key() == c.Key();
    assert Dedup(list)[k] in list;
    ColonFreeKey(c, Dedup(list)[k]);
  }
}
