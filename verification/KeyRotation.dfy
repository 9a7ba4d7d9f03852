/**
 * `RotateKey` under concurrency: a rotation reads the old key, revokes it ignoring errors, and
 * creates its successor, in three separate database accesses. How many active keys can a lineage of
 * rotations end up with?
 */
module KeyRotation {
  import opened Wrappers
  import opened KeyStore
  import C = CliAuth

  /** A key row and the row its lineage of rotations started from. Rows are never deleted. */
  datatype Row = Row(key: APIKey, root: nat)

  datatype Stage = HasOld | Creating | Finished

  /** A rotation request of the key in row `old_`, which it read as `key`. */
  datatype Rotation = Rotation(old_: nat, key: APIKey, stage: Stage)

  /** `overlaps` and `failures` list the roots of rotations begun during another and of failed revokes. */
  datatype State = State(rows: seq<Row>, rotations: seq<Rotation>, overlaps: seq<nat>, failures: seq<nat>)

  datatype Event =
    | Issue(id: string, projectId: string, scopes: seq<string>, expiresAt: Option<int>)
    | Revoke(i: nat)
    | Begin(i: nat, now: int)
    | RevokeOld(j: nat, works: bool)
    | CreateNew(j: nat, id: string, works: bool)

  const INITIAL := State([], [], [], [])

  function Sum(ws: seq<nat>): nat {
    if ws == [] then 0 else Sum(ws[..|ws| - 1]) + ws[|ws| - 1]
  }

  function Reads(r: Rotation, i: nat): nat {
    if r.old_ == i && r.stage.HasOld? then 1 else 0
  }

  /** Rotations that have read row `i` and not yet tried to revoke it. */
  function Readers(rotations: seq<Rotation>, i: nat): nat {
    Sum(seq(|rotations|, j requires 0 <= j < |rotations| => Reads(rotations[j], i)))
  }

  predicate Enabled(s: State, e: Event) {
    match e
    case Issue(_, _, _, _) => true
    case Revoke(i) => i < |s.rows|
    case Begin(i, now) => i < |s.rows| && s.rows[i].key.IsActive(now)
    case RevokeOld(j, _) => j < |s.rotations| && s.rotations[j].stage.HasOld? && s.rotations[j].old_ < |s.rows|
    case CreateNew(j, _, _) => j < |s.rotations| && s.rotations[j].stage.Creating? && s.rotations[j].old_ < |s.rows|
  }

  function RevokeRow(rows: seq<Row>, i: nat): seq<Row>
    requires i < |rows|
  {
    rows[i := rows[i].(key := rows[i].key.(status := Revoked))]
  }

  function Do(s: State, e: Event): State
    requires Enabled(s, e)
  {
    match e
    case Issue(id, projectId, scopes, expiresAt) =>
      s.(rows := s.rows + [Row(NewAPIKey(id, projectId, scopes, expiresAt), |s.rows|)])
    case Revoke(i) => s.(rows := RevokeRow(s.rows, i))
    case Begin(i, _) =>
      s.(rotations := s.rotations + [Rotation(i, s.rows[i].key, HasOld)],
         overlaps := if Readers(s.rotations, i) > 0 then s.overlaps + [s.rows[i].root] else s.overlaps)
    case RevokeOld(j, works) =>
      var r := s.rotations[j];
      s.(rows := if works then RevokeRow(s.rows, r.old_) else s.rows,
         rotations := s.rotations[j := r.(stage := Creating)],
         failures := if works then s.failures else s.failures + [s.rows[r.old_].root])
    case CreateNew(j, id, works) =>
      var r := s.rotations[j];
      s.(rows := if works
                 then s.rows + [Row(NewAPIKey(id, r.key.projectId, r.key.scopes, None), s.rows[r.old_].root)]
                 else s.rows,
         rotations := s.rotations[j := r.(stage := Finished)])
  }

  function After(es: seq<Event>): Option<State> {
    if es == [] then Some(INITIAL)
    else
      match After(es[..|es| - 1])
      case None => None
      case Some(s) => if Enabled(s, es[|es| - 1]) then Some(Do(s, es[|es| - 1])) else None
  }

  // ----- lineages keep their project and scopes -----

  predicate RowOk(rows: seq<Row>, i: nat)
    requires i < |rows|
  {
    var root := rows[i].root;
    && root <= i && rows[root].root == root
    && rows[i].key.scopes == rows[root].key.scopes != []
    && rows[i].key.projectId == rows[root].key.projectId
  }

  predicate RotationOk(rows: seq<Row>, r: Rotation) {
    r.old_ < |rows| && r.key.SameKey(rows[r.old_].key)
  }

  predicate LineageOk(s: State) {
    && (forall i :: 0 <= i < |s.rows| ==> RowOk(s.rows, i))
    && (forall j :: 0 <= j < |s.rotations| ==> RotationOk(s.rows, s.rotations[j]))
  }

  /** Rows stay in place and change at most their status. */
  predicate RowsGrow(rows: seq<Row>, rows': seq<Row>) {
    && |rows| <= |rows'|
    && forall i :: 0 <= i < |rows| ==> rows'[i].root == rows[i].root && rows'[i].key.SameKey(rows[i].key)
  }

  lemma StepGrows(s: State, e: Event)
    requires Enabled(s, e)
    ensures RowsGrow(s.rows, Do(s, e).rows)
  {
  }

  lemma RowStaysOk(rows: seq<Row>, rows': seq<Row>, i: nat)
    requires RowsGrow(rows, rows') && i < |rows| && RowOk(rows, i)
    ensures RowOk(rows', i)
  {
  }

  lemma NewRowOk(s: State, e: Event)
    requires LineageOk(s) && Enabled(s, e) && |Do(s, e).rows| > |s.rows|
    ensures |Do(s, e).rows| == |s.rows| + 1 && RowOk(Do(s, e).rows, |s.rows|)
  {
    if e.CreateNew? {
      assert RotationOk(s.rows, s.rotations[e.j]);
      assert RowOk(s.rows, s.rotations[e.j].old_);
    }
  }

  lemma NewRotationOk(s: State, e: Event, j: nat)
    requires LineageOk(s) && Enabled(s, e) && j < |Do(s, e).rotations|
    ensures RotationOk(s.rows, Do(s, e).rotations[j])
  {
    assert j < |s.rotations| ==> RotationOk(s.rows, s.rotations[j]);
  }

  lemma StepKeepsLineage(s: State, e: Event)
    requires LineageOk(s) && Enabled(s, e)
    ensures LineageOk(Do(s, e))
  {
    var s' := Do(s, e);
    StepGrows(s, e);
    forall i | 0 <= i < |s'.rows| ensures RowOk(s'.rows, i) {
      if i < |s.rows| {
        RowStaysOk(s.rows, s'.rows, i);
      } else {
        NewRowOk(s, e);
      }
    }
    forall j | 0 <= j < |s'.rotations| ensures RotationOk(s'.rows, s'.rotations[j]) {
      NewRotationOk(s, e, j);
    }
  }

  lemma {:induction false} RunKeepsLineage(es: seq<Event>)
    requires After(es).Some?
    ensures LineageOk(After(es).value)
    decreases |es|
  {
    if es != [] {
      RunKeepsLineage(es[..|es| - 1]);
      StepKeepsLineage(After(es[..|es| - 1]).value, es[|es| - 1]);
    }
  }

  /** In every run, keys of one lineage have the same project and the same, non-empty scopes. */
  lemma LineageConstant(es: seq<Event>, i: nat, j: nat)
    requires After(es).Some? && i < |After(es).value.rows| && j < |After(es).value.rows|
    requires After(es).value.rows[i].root == After(es).value.rows[j].root
    ensures var a, b := After(es).value.rows[i].key, After(es).value.rows[j].key;
      a.projectId == b.projectId && a.scopes == b.scopes != []
  {
    RunKeepsLineage(es);
    assert RowOk(After(es).value.rows, i) && RowOk(After(es).value.rows, j);
  }

  /** No event makes a key active again that was not, or changes anything else about a key. */
  lemma KeysOnlyGetRevoked(s: State, e: Event, i: nat)
    requires Enabled(s, e) && i < |s.rows|
    ensures i < |Do(s, e).rows| && Do(s, e).rows[i].root == s.rows[i].root
    ensures Do(s, e).rows[i].key.SameKey(s.rows[i].key)
    ensures Do(s, e).rows[i].key.status == s.rows[i].key.status || Do(s, e).rows[i].key.status == KeyStatus.Revoked
  {
  }

  /** In every continuation of a run a key keeps its row and content, and once revoked stays revoked. */
  lemma {:induction false} RevokedForever(es: seq<Event>, more: seq<Event>, i: nat)
    requires After(es).Some? && After(es + more).Some? && i < |After(es).value.rows|
    ensures var a, b := After(es).value.rows, After(es + more).value.rows;
      && i < |b| && b[i].root == a[i].root && b[i].key.SameKey(a[i].key)
      && (a[i].key.status == KeyStatus.Revoked ==> b[i].key.status == KeyStatus.Revoked)
    decreases |more|
  {
    if more == [] {
      assert es + more == es;
    } else {
      var n := |more| - 1;
      assert (es + more)[..|es + more| - 1] == es + more[..n] && (es + more)[|es + more| - 1] == more[n];
      RevokedForever(es, more[..n], i);
      KeysOnlyGetRevoked(After(es + more[..n]).value, more[n], i);
    }
  }

  // ----- how many active keys a lineage can have -----

  lemma {:induction false} SumUpdate(ws: seq<nat>, i: nat, v: nat)
    requires i < |ws|
    ensures Sum(ws[i := v]) == Sum(ws) - ws[i] + v
    decreases |ws|
  {
    var n := |ws|;
    if i < n - 1 {
      SumUpdate(ws[..n - 1], i, v);
      assert ws[i := v][..n - 1] == ws[..n - 1][i := v];
    } else {
      assert ws[i := v][..n - 1] == ws[..n - 1];
    }
  }

  lemma SumAppend(ws: seq<nat>, v: nat)
    ensures Sum(ws + [v]) == Sum(ws) + v
  {
    assert (ws + [v])[..|ws|] == ws;
  }

  lemma {:induction false} SumZero(ws: seq<nat>)
    requires forall k :: 0 <= k < |ws| ==> ws[k] == 0
    ensures Sum(ws) == 0
    decreases |ws|
  {
    if ws != [] {
      SumZero(ws[..|ws| - 1]);
    }
  }

  lemma {:induction false} SumPositive(ws: seq<nat>, j: nat)
    requires j < |ws|
    ensures Sum(ws) >= ws[j]
    decreases |ws|
  {
    if j < |ws| - 1 {
      SumPositive(ws[..|ws| - 1], j);
    }
  }

  function ReadsOf(rotations: seq<Rotation>, i: nat): seq<nat> {
    seq(|rotations|, j requires 0 <= j < |rotations| => Reads(rotations[j], i))
  }

  lemma ReadersAppend(rotations: seq<Rotation>, r: Rotation, i: nat)
    ensures Readers(rotations + [r], i) == Readers(rotations, i) + Reads(r, i)
  {
    SumAppend(ReadsOf(rotations, i), Reads(r, i));
    assert ReadsOf(rotations + [r], i) == ReadsOf(rotations, i) + [Reads(r, i)];
    assert Readers(rotations + [r], i) == Sum(ReadsOf(rotations + [r], i));
  }

  lemma ReadersUpdate(rotations: seq<Rotation>, j: nat, r: Rotation, i: nat)
    requires j < |rotations|
    ensures Readers(rotations[j := r], i) == Readers(rotations, i) - Reads(rotations[j], i) + Reads(r, i)
    ensures Readers(rotations, i) >= Reads(rotations[j], i)
  {
    SumUpdate(ReadsOf(rotations, i), j, Reads(r, i));
    SumPositive(ReadsOf(rotations, i), j);
    assert ReadsOf(rotations[j := r], i) == ReadsOf(rotations, i)[j := Reads(r, i)];
    assert Readers(rotations[j := r], i) == Sum(ReadsOf(rotations[j := r], i));
    assert Readers(rotations, i) == Sum(ReadsOf(rotations, i));
  }

  lemma NoReaders(s: State, i: nat)
    requires LineageOk(s) && i >= |s.rows|
    ensures Readers(s.rotations, i) == 0
  {
    assert forall j :: 0 <= j < |s.rotations| ==> RotationOk(s.rows, s.rotations[j]);
    SumZero(ReadsOf(s.rotations, i));
    assert Readers(s.rotations, i) == Sum(ReadsOf(s.rotations, i));
  }

  function Count(roots: seq<nat>, root: nat): nat {
    var n := |roots|;
    if n == 0 then 0 else Count(roots[..n - 1], root) + if roots[n - 1] == root then 1 else 0
  }

  function ActiveCount(rows: seq<Row>, root: nat): nat {
    var n := |rows|;
    if n == 0 then 0
    else
      ActiveCount(rows[..n - 1], root)
      + if rows[n - 1].root == root && rows[n - 1].key.status == Active then 1 else 0
  }

  /** The active keys a row may still account for: itself, or one successor per reader. */
  function Weight(row: Row, readers: nat, root: nat): nat {
    if row.root != root then 0
    else if row.key.status == Active && readers == 0 then 1
    else readers
  }

  function Weights(s: State, root: nat): (ws: seq<nat>)
    ensures |ws| == |s.rows|
  {
    seq(|s.rows|, i requires 0 <= i < |s.rows| => Weight(s.rows[i], Readers(s.rotations, i), root))
  }

  function Creates(s: State, r: Rotation, root: nat): nat {
    if r.stage.Creating? && r.old_ < |s.rows| && s.rows[r.old_].root == root then 1 else 0
  }

  /** Rotations of the lineage between revoking and creating. */
  function Creations(s: State, root: nat): (ws: seq<nat>)
    ensures |ws| == |s.rotations|
  {
    seq(|s.rotations|, j requires 0 <= j < |s.rotations| => Creates(s, s.rotations[j], root))
  }

  function Potential(s: State, root: nat): nat {
    Sum(Weights(s, root)) + Sum(Creations(s, root))
  }

  function Allowance(s: State, root: nat): nat {
    (if root < |s.rows| && s.rows[root].root == root then 1 else 0) + Count(s.overlaps, root) + Count(s.failures, root)
  }

  lemma CountAppend(roots: seq<nat>, x: nat, root: nat)
    ensures Count(roots + [x], root) == Count(roots, root) + if x == root then 1 else 0
  {
    assert (roots + [x])[..|roots|] == roots;
  }

  // How the two sums react to a change of one row or of one rotation.

  lemma WeightsUpdate(s: State, s': State, k: nat, root: nat)
    requires |s'.rows| == |s.rows| && k < |s.rows|
    requires forall i :: 0 <= i < |s.rows| && i != k ==>
      s'.rows[i] == s.rows[i] && Readers(s'.rotations, i) == Readers(s.rotations, i)
    ensures Sum(Weights(s', root)) == Sum(Weights(s, root))
      - Weight(s.rows[k], Readers(s.rotations, k), root) + Weight(s'.rows[k], Readers(s'.rotations, k), root)
  {
    var v := Weight(s'.rows[k], Readers(s'.rotations, k), root);
    assert Weights(s', root) == Weights(s, root)[k := v];
    SumUpdate(Weights(s, root), k, v);
  }

  lemma WeightsAppend(s: State, s': State, row: Row, root: nat)
    requires LineageOk(s) && s'.rows == s.rows + [row]
    requires forall i :: 0 <= i <= |s.rows| ==> Readers(s'.rotations, i) == Readers(s.rotations, i)
    ensures Sum(Weights(s', root)) == Sum(Weights(s, root)) + Weight(row, 0, root)
  {
    NoReaders(s, |s.rows|);
    assert Weights(s', root) == Weights(s, root) + [Weight(row, 0, root)];
    SumAppend(Weights(s, root), Weight(row, 0, root));
  }

  predicate SameRoots(s: State, s': State) {
    |s.rows| <= |s'.rows| && forall i :: 0 <= i < |s.rows| ==> s'.rows[i].root == s.rows[i].root
  }

  lemma CreationsSame(s: State, s': State, root: nat)
    requires LineageOk(s) && SameRoots(s, s') && s'.rotations == s.rotations
    ensures Creations(s', root) == Creations(s, root)
  {
    assert forall j :: 0 <= j < |s.rotations| ==> RotationOk(s.rows, s.rotations[j]);
  }

  lemma CreationsUpdate(s: State, s': State, j: nat, r: Rotation, root: nat)
    requires LineageOk(s) && SameRoots(s, s') && j < |s.rotations| && s'.rotations == s.rotations[j := r]
    ensures Sum(Creations(s', root))
         == Sum(Creations(s, root)) - Creates(s, s.rotations[j], root) + Creates(s', r, root)
  {
    assert forall i :: 0 <= i < |s.rotations| ==> RotationOk(s.rows, s.rotations[i]);
    assert Creations(s', root) == Creations(s, root)[j := Creates(s', r, root)];
    SumUpdate(Creations(s, root), j, Creates(s', r, root));
  }

  // One lemma per event: the potential grows by at most what the allowance grows.

  lemma IssueBalance(s: State, e: Event, root: nat)
    requires LineageOk(s) && e.Issue? && Potential(s, root) <= Allowance(s, root)
    ensures Potential(Do(s, e), root) <= Allowance(Do(s, e), root)
  {
    var s' := Do(s, e);
    WeightsAppend(s, s', s'.rows[|s.rows|], root);
    CreationsSame(s, s', root);
  }

  lemma RevokeBalance(s: State, e: Event, root: nat)
    requires LineageOk(s) && Enabled(s, e) && e.Revoke? && Potential(s, root) <= Allowance(s, root)
    ensures Potential(Do(s, e), root) <= Allowance(Do(s, e), root)
  {
    WeightsUpdate(s, Do(s, e), e.i, root);
    CreationsSame(s, Do(s, e), root);
  }

  lemma BeginWeights(s: State, e: Event, root: nat)
    requires Enabled(s, e) && e.Begin?
    ensures var n := Readers(s.rotations, e.i);
      Sum(Weights(Do(s, e), root))
      == Sum(Weights(s, root)) - Weight(s.rows[e.i], n, root) + Weight(s.rows[e.i], n + 1, root)
  {
    var s', r := Do(s, e), Rotation(e.i, s.rows[e.i].key, HasOld);
    forall i | 0 <= i < |s.rows| ensures Readers(s'.rotations, i) == Readers(s.rotations, i) + Reads(r, i) {
      ReadersAppend(s.rotations, r, i);
    }
    WeightsUpdate(s, s', e.i, root);
  }

  lemma BeginCreations(s: State, e: Event, root: nat)
    requires Enabled(s, e) && e.Begin?
    ensures Sum(Creations(Do(s, e), root)) == Sum(Creations(s, root))
  {
    assert Creations(Do(s, e), root) == Creations(s, root) + [0];
    SumAppend(Creations(s, root), 0);
  }

  lemma BeginBalance(s: State, e: Event, root: nat)
    requires Enabled(s, e) && e.Begin? && Potential(s, root) <= Allowance(s, root)
    ensures Potential(Do(s, e), root) <= Allowance(Do(s, e), root)
  {
    BeginWeights(s, e, root);
    BeginCreations(s, e, root);
    CountAppend(s.overlaps, s.rows[e.i].root, root);
  }

  lemma RevokeOldWeights(s: State, e: Event, root: nat)
    requires LineageOk(s) && Enabled(s, e) && e.RevokeOld?
    ensures var k := s.rotations[e.j].old_;
      var n := Readers(s.rotations, k);
      && n > 0
      && Sum(Weights(Do(s, e), root))
         == Sum(Weights(s, root)) - Weight(s.rows[k], n, root) + Weight(Do(s, e).rows[k], n - 1, root)
  {
    var s', r := Do(s, e), s.rotations[e.j];
    var r' := r.(stage := Creating);
    forall i | 0 <= i < |s.rows| && i != r.old_ ensures Readers(s'.rotations, i) == Readers(s.rotations, i) {
      ReadersUpdate(s.rotations, e.j, r', i);
    }
    ReadersUpdate(s.rotations, e.j, r', r.old_);
    WeightsUpdate(s, s', r.old_, root);
  }

  lemma RevokeOldBalance(s: State, e: Event, root: nat)
    requires LineageOk(s) && Enabled(s, e) && e.RevokeOld? && Potential(s, root) <= Allowance(s, root)
    ensures Potential(Do(s, e), root) <= Allowance(Do(s, e), root)
  {
    var s', r := Do(s, e), s.rotations[e.j];
    RevokeOldWeights(s, e, root);
    CreationsUpdate(s, s', e.j, r.(stage := Creating), root);
    CountAppend(s.failures, s.rows[r.old_].root, root);
  }

  lemma CreateNewBalance(s: State, e: Event, root: nat)
    requires LineageOk(s) && Enabled(s, e) && e.CreateNew? && Potential(s, root) <= Allowance(s, root)
    ensures Potential(Do(s, e), root) <= Allowance(Do(s, e), root)
  {
    var s', r := Do(s, e), s.rotations[e.j];
    var r' := r.(stage := Finished);
    forall i | 0 <= i <= |s.rows| ensures Readers(s'.rotations, i) == Readers(s.rotations, i) {
      ReadersUpdate(s.rotations, e.j, r', i);
    }
    CreationsUpdate(s, s', e.j, r', root);
    if e.works {
      WeightsAppend(s, s', s'.rows[|s.rows|], root);
    } else {
      assert Weights(s', root) == Weights(s, root);
    }
  }

  lemma StepBalance(s: State, e: Event, root: nat)
    requires LineageOk(s) && Enabled(s, e) && Potential(s, root) <= Allowance(s, root)
    ensures Potential(Do(s, e), root) <= Allowance(Do(s, e), root)
  {
    match e
    case Issue(_, _, _, _) => IssueBalance(s, e, root);
    case Revoke(_) => RevokeBalance(s, e, root);
    case Begin(_, _) => BeginBalance(s, e, root);
    case RevokeOld(_, _) => RevokeOldBalance(s, e, root);
    case CreateNew(_, _, _) => CreateNewBalance(s, e, root);
  }

  lemma {:induction false} RunBalance(es: seq<Event>, root: nat)
    requires After(es).Some?
    ensures Potential(After(es).value, root) <= Allowance(After(es).value, root)
    decreases |es|
  {
    if es != [] {
      RunBalance(es[..|es| - 1], root);
      RunKeepsLineage(es[..|es| - 1]);
      StepBalance(After(es[..|es| - 1]).value, es[|es| - 1], root);
    }
  }

  lemma {:induction false} ActiveWithinWeights(s: State, n: nat, root: nat)
    requires n <= |s.rows|
    ensures ActiveCount(s.rows[..n], root) <= Sum(Weights(s, root)[..n])
    decreases n
  {
    if n > 0 {
      ActiveWithinWeights(s, n - 1, root);
      assert s.rows[..n][..n - 1] == s.rows[..n - 1] && Weights(s, root)[..n][..n - 1] == Weights(s, root)[..n - 1];
    }
  }

  /**
   * In every run, whatever fails and however rotations interleave, a lineage has at most one active
   * key plus one for each rotation begun while another rotation of the same key was about to revoke
   * it, plus one for each revocation that failed. Without those there is at most one.
   */
  lemma ActiveKeysBounded(es: seq<Event>, root: nat)
    requires After(es).Some?
    ensures var s := After(es).value;
      ActiveCount(s.rows, root) <= 1 + Count(s.overlaps, root) + Count(s.failures, root)
  {
    var s := After(es).value;
    RunBalance(es, root);
    ActiveWithinWeights(s, |s.rows|, root);
    assert s.rows[..|s.rows|] == s.rows && Weights(s, root)[..|s.rows|] == Weights(s, root);
  }

  // ----- exactly when one active key per lineage is kept -----

  /** Which troubles can occur: rotations of one key at the same time, revocations that fail. */
  datatype Troubles = Troubles(overlap: bool, failure: bool) {
    predicate Permit(s: State) {
      (overlap || s.overlaps == []) && (failure || s.failures == [])
    }
  }

  ghost predicate OneActiveKey(t: Troubles) {
    forall es, root: nat ::
      After(es).Some? && t.Permit(After(es).value) ==> ActiveCount(After(es).value.rows, root) <= 1
  }

  lemma Extend(es: seq<Event>, e: Event) returns (es': seq<Event>, s': State)
    requires After(es).Some? && Enabled(After(es).value, e)
    ensures es' == es + [e] && After(es') == Some(s') && s' == Do(After(es).value, e)
  {
    es' := es + [e];
    assert es'[..|es'| - 1] == es;
    s' := Do(After(es).value, e);
  }

  lemma OneReader(rotations: seq<Rotation>)
    requires |rotations| == 1 && rotations[0].old_ == 0 && rotations[0].stage.HasOld?
    ensures Readers(rotations, 0) == 1
  {
    assert ReadsOf(rotations, 0) == [1];
    assert [1][..0] == [];
    assert Readers(rotations, 0) == Sum(ReadsOf(rotations, 0));
  }

  lemma TwoActive(rows: seq<Row>)
    requires |rows| >= 2 && rows[|rows| - 1].root == rows[|rows| - 2].root == 0
    requires rows[|rows| - 1].key.status == rows[|rows| - 2].key.status == Active
    ensures ActiveCount(rows, 0) >= 2
  {
    assert rows[..|rows| - 1][..|rows| - 2] == rows[..|rows| - 2];
  }

  /** Two rotations that both read the key before either revokes it leave two active keys. */
  lemma OverlapLeavesTwo() returns (es: seq<Event>)
    ensures After(es).Some? && After(es).value.failures == [] && ActiveCount(After(es).value.rows, 0) >= 2
  {
    var s;
    es, s := Extend([], Issue("k", "p", [], None));
    es, s := Extend(es, Begin(0, 0));
    OneReader(s.rotations);
    es, s := Extend(es, Begin(0, 0));
    es, s := Extend(es, RevokeOld(0, true));
    es, s := Extend(es, RevokeOld(1, true));
    es, s := Extend(es, CreateNew(0, "k1", true));
    es, s := Extend(es, CreateNew(1, "k2", true));
    TwoActive(s.rows);
  }

  /** A rotation whose revocation fails leaves the old and the new key active. */
  lemma FailureLeavesTwo() returns (es: seq<Event>)
    ensures After(es).Some? && After(es).value.overlaps == [] && ActiveCount(After(es).value.rows, 0) >= 2
  {
    var s;
    es, s := Extend([], Issue("k", "p", [], None));
    es, s := Extend(es, Begin(0, 0));
    es, s := Extend(es, RevokeOld(0, false));
    es, s := Extend(es, CreateNew(0, "k1", true));
    TwoActive(s.rows);
  }

  /** One active key per lineage is guaranteed exactly when neither trouble can occur. */
  lemma OneActiveKeyExactly(t: Troubles)
    ensures OneActiveKey(t) <==> !t.overlap && !t.failure
  {
    if t.overlap {
      var es := OverlapLeavesTwo();
      assert t.Permit(After(es).value);
    } else if t.failure {
      var es := FailureLeavesTwo();
      assert t.Permit(After(es).value);
    } else {
      forall es, root: nat | After(es).Some? && t.Permit(After(es).value)
        ensures ActiveCount(After(es).value.rows, root) <= 1
      {
        ActiveKeysBounded(es, root);
      }
    }
  }

  // ----- a rotation that runs alone -----

  /** The rows of a run are the key table: `pos` says which row holds the key under a hash. */
  ghost predicate Mirrors(rows: seq<Row>, table: Table, pos: map<string, nat>) {
    && pos.Keys == table.Keys
    && (forall h :: h in pos ==> pos[h] < |rows| && rows[pos[h]].key == table[h])
    && (forall h, h' :: h in pos && h' in pos && pos[h] == pos[h'] ==> h == h')
    && (forall i: nat :: i < |rows| ==> i in pos.Values)
  }

  lemma MirrorsRevoked(rows: seq<Row>, table: Table, pos: map<string, nat>, hash: string)
    requires Mirrors(rows, table, pos) && hash in table
    ensures Mirrors(RevokeRow(rows, pos[hash]), table[hash := table[hash].(status := Revoked)], pos)
  {
    var rows', table' := RevokeRow(rows, pos[hash]), table[hash := table[hash].(status := Revoked)];
    forall h | h in pos ensures pos[h] < |rows'| && rows'[pos[h]].key == table'[h] {
    }
  }

  lemma MirrorsAdded(rows: seq<Row>, table: Table, pos: map<string, nat>, hash: string, row: Row)
    requires Mirrors(rows, table, pos) && hash !in table
    ensures Mirrors(rows + [row], table[hash := row.key], pos[hash := |rows|])
  {
    var rows', pos' := rows + [row], pos[hash := |rows|];
    forall i: nat | i < |rows'| ensures i in pos'.Values {
      if i < |rows| {
        assert i in pos.Values;
        var h :| h in pos && pos[h] == i;
        assert h in pos' && pos'[h] == i;
      } else {
        assert pos'[hash] == i;
      }
    }
  }

  /** The first two steps: the key is read, and revoked if that works. */
  lemma OldGone(es: seq<Event>, s: State, table: Table, pos: map<string, nat>, hash: string, w: C.RotationWorld)
    returns (es': seq<Event>, s': State)
    requires After(es) == Some(s) && Mirrors(s.rows, table, pos) && C.Rotatable(table, hash, w)
    ensures es' == es + [Begin(pos[hash], w.now), RevokeOld(|s.rotations|, w.revokeWorks)] && After(es') == Some(s')
    ensures Mirrors(s'.rows, C.OldRevoked(table, hash, w), pos) && |s'.rows| == |s.rows|
    ensures pos[hash] < |s.rows| && s'.rows[pos[hash]].root == s.rows[pos[hash]].root
    ensures s'.rotations == s.rotations + [Rotation(pos[hash], table[hash], Creating)]
  {
    var es1, s1 := Extend(es, Begin(pos[hash], w.now));
    es', s' := Extend(es1, RevokeOld(|s.rotations|, w.revokeWorks));
    if w.revokeWorks {
      MirrorsRevoked(s.rows, table, pos, hash);
    }
  }

  /** The three steps of a rotation of the key under `hash`, alone, from `es` on. */
  function AloneSteps(
    s: State, table: Table, projects: set<string>, i: nat, hash: string, w: C.RotationWorld): seq<Event>
  {
    if !C.Rotatable(table, hash, w) then []
    else [Begin(i, w.now), RevokeOld(|s.rotations|, w.revokeWorks),
          CreateNew(|s.rotations|, w.newId, C.Stored(table, projects, hash, w))]
  }

  /**
   * `RotateKey` running alone is a run of this model: from any state a run reaches whose rows are the
   * key table, its steps end in rows that are the table the method leaves, and the new key joins the
   * lineage of the old one.
   */
  lemma LoneRotation(
    es: seq<Event>, s: State, table: Table, projects: set<string>, pos: map<string, nat>, hash: string,
    w: C.RotationWorld)
    returns (es': seq<Event>, s': State, pos': map<string, nat>)
    requires After(es) == Some(s) && Mirrors(s.rows, table, pos) && hash in table
    ensures es' == es + AloneSteps(s, table, projects, pos[hash], hash, w) && After(es') == Some(s')
    ensures Mirrors(s'.rows, C.Rotated(table, projects, hash, w).0, pos')
    ensures |s'.rows| > |s.rows| ==> s'.rows[|s.rows|].root == s.rows[pos[hash]].root
  {
    es', s', pos' := es, s, pos;
    if C.Rotatable(table, hash, w) {
      var works := C.Stored(table, projects, hash, w);
      var es1, s1 := OldGone(es, s, table, pos, hash, w);
      es', s' := Extend(es1, CreateNew(|s.rotations|, w.newId, works));
      if works {
        MirrorsAdded(s1.rows, C.OldRevoked(table, hash, w), pos, w.newHash, s'.rows[|s.rows|]);
        pos' := pos[w.newHash := |s.rows|];
      }
    } else {
      assert es + [] == es;
    }
  }
}
