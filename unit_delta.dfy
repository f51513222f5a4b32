/**
 * The delta-tracking state of the unpivoted context, as a value, and the
 * transition each of its operations makes. The class in ContextUnit keeps
 * these fields and each of its methods is proved to make this transition.
 */
module UnitDelta {
  import opened Scalars

  /** One row of a flattened batch: its primary key and its operation tag. */
  datatype Record = Record(pkey: Scalar, op: u8)

  /**
   * The interned primary keys whose rows changed in this cycle, the flag
   * `has_deltas` reports, the two "changed" flags reported by delta reads,
   * and whether the context has been initialized.
   */
  datatype DeltaState = DeltaState(
    pkeys: set<Scalar>,
    hasDelta: bool,
    rowsChanged: bool,
    columnsChanged: bool,
    isInit: bool)

  /** The outcome of a full notify: done, or stopped at the first row with a tag other than insert or delete. */
  datatype NotifyOutcome = Notified | UnexpectedOp(row: nat, op: u8)

  /** The set of interned primary keys of a batch. */
  function InternedKeys(intern: Scalar -> Scalar, recs: seq<Record>): set<Scalar> {
    set i | 0 <= i < |recs| :: intern(recs[i].pkey)
  }

  /** The set of (raw) primary keys of a batch. */
  function PrimaryKeys(recs: seq<Record>): set<Scalar> {
    set i | 0 <= i < |recs| :: recs[i].pkey
  }

  predicate HasDelete(recs: seq<Record>) {
    exists i :: 0 <= i < |recs| && recs[i].op == OP_DELETE
  }

  datatype Option<T> = None | Some(value: T)

  /** The first row whose tag is neither insert nor delete, if there is one. */
  function FirstUnexpectedOp(recs: seq<Record>): (r: Option<nat>)
    ensures r.None? <==> forall i :: 0 <= i < |recs| ==> KnownOp(recs[i].op)
    ensures r.Some? ==> r.value < |recs| && !KnownOp(recs[r.value].op)
    ensures r.Some? ==> forall i :: 0 <= i < r.value ==> KnownOp(recs[i].op)
  {
    if recs == [] then None
    else if !KnownOp(recs[0].op) then Some(0)
    else match FirstUnexpectedOp(recs[1..])
      case None => None
      case Some(j) => Some(j + 1)
  }

  // ---------------------------------------------------------------------
  // Transitions.

  /** A freshly constructed context: no keys, no flags, not initialized. */
  function Initial(): DeltaState {
    DeltaState({}, false, false, false, false)
  }

  function Init(s: DeltaState): DeltaState {
    s.(isInit := true)
  }

  /** Start of an update cycle: clears the key set and both "changed" flags, once initialized. */
  function StepBegin(s: DeltaState): DeltaState {
    if !s.isInit then s
    else s.(pkeys := {}, rowsChanged := false, columnsChanged := false)
  }

  function AddDeltaPkey(s: DeltaState, pkey: Scalar): DeltaState {
    s.(pkeys := s.pkeys + {pkey})
  }

  /** Notify for the first batch into an empty master state: every key is tracked and the flag is raised. */
  function NotifyFirst(s: DeltaState, intern: Scalar -> Scalar, recs: seq<Record>): DeltaState {
    s.(hasDelta := true, pkeys := s.pkeys + InternedKeys(intern, recs))
  }

  /**
   * Notify for a later batch. Every row's interned key is tracked; the flag
   * becomes "some key is tracked or some row was a delete". A row with any
   * other tag stops the call: the keys of the rows before it stay tracked and
   * the flag is left as it was.
   */
  function Notify(s: DeltaState, intern: Scalar -> Scalar, recs: seq<Record>): (DeltaState, NotifyOutcome) {
    match FirstUnexpectedOp(recs)
    case Some(j) =>
      (s.(pkeys := s.pkeys + InternedKeys(intern, recs[..j])), UnexpectedOp(j, recs[j].op))
    case None =>
      var keys := s.pkeys + InternedKeys(intern, recs);
      (s.(pkeys := keys, hasDelta := |keys| > 0 || HasDelete(recs)), Notified)
  }

  /** What `reset` and `clear_deltas` both do: drop the delta flag and nothing else. */
  function DropDeltaFlag(s: DeltaState): DeltaState {
    s.(hasDelta := false)
  }

  // ---------------------------------------------------------------------
  // Properties.

  /** Extending a batch by one row tracks exactly that row's interned key in addition. */
  lemma InternedKeysSnoc(intern: Scalar -> Scalar, recs: seq<Record>, n: nat)
    requires n < |recs|
    ensures InternedKeys(intern, recs[..n + 1]) == InternedKeys(intern, recs[..n]) + {intern(recs[n].pkey)}
  {
    var a, b := recs[..n + 1], recs[..n];
    assert forall i :: 0 <= i < n ==> a[i] == b[i];
  }

  lemma HasDeleteSnoc(recs: seq<Record>, n: nat)
    requires n < |recs|
    ensures HasDelete(recs[..n + 1]) == (HasDelete(recs[..n]) || recs[n].op == OP_DELETE)
  {
    var a, b := recs[..n + 1], recs[..n];
    assert a[n] == recs[n];
    assert forall i :: 0 <= i < n ==> a[i] == b[i];
  }

  /**
   * Where the full notify's loop stands after `n` rows, starting from `s0`:
   * every tag so far was known, `keys` holds the starting keys and the
   * interned keys of those rows, `deleteSeen` says whether one was a delete.
   */
  ghost predicate NotifyProgress(s0: DeltaState, intern: Scalar -> Scalar, recs: seq<Record>, n: nat,
                                 keys: set<Scalar>, deleteSeen: bool)
  {
    && n <= |recs|
    && keys == s0.pkeys + InternedKeys(intern, recs[..n])
    && deleteSeen == HasDelete(recs[..n])
    && forall i :: 0 <= i < n ==> KnownOp(recs[i].op)
  }

  lemma NotifyProgressStart(s0: DeltaState, intern: Scalar -> Scalar, recs: seq<Record>)
    ensures NotifyProgress(s0, intern, recs, 0, s0.pkeys, false)
  {
    assert recs[..0] == [];
  }

  /**
   * The full notify as its loop runs it, from row `i` on, with the keys and
   * the delete flag gathered so far.
   */
  function NotifyLoop(s0: DeltaState, intern: Scalar -> Scalar, recs: seq<Record>, i: nat,
                      keys: set<Scalar>, deleteSeen: bool): (DeltaState, NotifyOutcome)
    requires i <= |recs|
    decreases |recs| - i
  {
    if i == |recs| then (s0.(pkeys := keys, hasDelta := |keys| > 0 || deleteSeen), Notified)
    else if !KnownOp(recs[i].op) then (s0.(pkeys := keys), UnexpectedOp(i, recs[i].op))
    else NotifyLoop(s0, intern, recs, i + 1, keys + {intern(recs[i].pkey)}, deleteSeen || recs[i].op == OP_DELETE)
  }

  /** The loop, run from any point its progress has reached, computes the full notify. */
  lemma {:induction false} NotifyLoopMatches(s0: DeltaState, intern: Scalar -> Scalar, recs: seq<Record>, n: nat,
                                             keys: set<Scalar>, deleteSeen: bool)
    requires NotifyProgress(s0, intern, recs, n, keys, deleteSeen)
    ensures NotifyLoop(s0, intern, recs, n, keys, deleteSeen) == Notify(s0, intern, recs)
    decreases |recs| - n
  {
    if n == |recs| {
      assert recs[..n] == recs;
      assert FirstUnexpectedOp(recs) == None;
    } else if !KnownOp(recs[n].op) {
      assert FirstUnexpectedOp(recs) == Some(n);
    } else {
      InternedKeysSnoc(intern, recs, n);
      HasDeleteSnoc(recs, n);
      NotifyLoopMatches(s0, intern, recs, n + 1, keys + {intern(recs[n].pkey)}, deleteSeen || recs[n].op == OP_DELETE);
    }
  }

  /** Interning an injective image keeps the number of distinct elements. */
  lemma {:induction false} InjectiveImageSize(intern: Scalar -> Scalar, keys: set<Scalar>)
    requires Injective(intern)
    ensures |set k | k in keys :: intern(k)| == |keys|
    decreases |keys|
  {
    if keys != {} {
      var k :| k in keys;
      var rest := keys - {k};
      InjectiveImageSize(intern, rest);
      assert (set x | x in keys :: intern(x)) == (set x | x in rest :: intern(x)) + {intern(k)};
      assert intern(k) !in (set x | x in rest :: intern(x));
    }
  }

  /**
   * A batch tracks one interned key per distinct primary key: duplicates in
   * the batch collapse, distinct keys never do.
   */
  lemma BatchKeyCount(intern: Scalar -> Scalar, recs: seq<Record>)
    requires Injective(intern)
    ensures |InternedKeys(intern, recs)| == |PrimaryKeys(recs)|
  {
    assert InternedKeys(intern, recs) == set k | k in PrimaryKeys(recs) :: intern(k);
    InjectiveImageSize(intern, PrimaryKeys(recs));
  }

  /**
   * step_begin: once initialized it empties the key set and clears both
   * "changed" flags; before init it changes nothing. The delta flag and the
   * init flag are never touched.
   */
  lemma StepBeginSpec(s: DeltaState)
    ensures StepBegin(s).hasDelta == s.hasDelta && StepBegin(s).isInit == s.isInit
    ensures s.isInit ==> StepBegin(s).pkeys == {} && !StepBegin(s).rowsChanged && !StepBegin(s).columnsChanged
    ensures !s.isInit ==> StepBegin(s) == s
  {
  }

  /**
   * The full notify never removes a key; when every tag is known it adds
   * exactly the batch's interned keys and raises the flag exactly when a key
   * is tracked or a row was a delete; otherwise it reports the first row with
   * an unknown tag, having added only the keys of the rows before it.
   */
  lemma NotifySpec(s: DeltaState, intern: Scalar -> Scalar, recs: seq<Record>)
    ensures var (t, outcome) := Notify(s, intern, recs);
      && s.pkeys <= t.pkeys
      && t.rowsChanged == s.rowsChanged && t.columnsChanged == s.columnsChanged && t.isInit == s.isInit
      && (outcome == Notified <==> forall i :: 0 <= i < |recs| ==> KnownOp(recs[i].op))
      && (outcome == Notified ==>
           t.pkeys == s.pkeys + InternedKeys(intern, recs)
           && (t.hasDelta <==> t.pkeys != {} || HasDelete(recs)))
      && (outcome.UnexpectedOp? ==>
           && outcome.row < |recs| && outcome.op == recs[outcome.row].op && !KnownOp(outcome.op)
           && (forall i :: 0 <= i < outcome.row ==> KnownOp(recs[i].op))
           && t.pkeys == s.pkeys + InternedKeys(intern, recs[..outcome.row])
           && t.hasDelta == s.hasDelta)
  {
  }

  /** A delete anywhere in an accepted batch raises the flag, even for a key never tracked before. */
  lemma DeleteForcesDelta(s: DeltaState, intern: Scalar -> Scalar, recs: seq<Record>)
    requires Notify(s, intern, recs).1 == Notified && HasDelete(recs)
    ensures Notify(s, intern, recs).0.hasDelta
  {
  }

  /** Any accepted non-empty batch raises the flag. */
  lemma NonEmptyBatchRaisesDelta(s: DeltaState, intern: Scalar -> Scalar, recs: seq<Record>)
    requires Notify(s, intern, recs).1 == Notified && recs != []
    ensures Notify(s, intern, recs).0.hasDelta
  {
    assert intern(recs[0].pkey) in InternedKeys(intern, recs);
  }

  /** The first-batch notify raises the flag even for an empty batch and tracks every row's key. */
  lemma NotifyFirstSpec(s: DeltaState, intern: Scalar -> Scalar, recs: seq<Record>)
    ensures NotifyFirst(s, intern, recs).hasDelta
    ensures NotifyFirst(s, intern, recs).pkeys == s.pkeys + InternedKeys(intern, recs)
    ensures forall i :: 0 <= i < |recs| ==> intern(recs[i].pkey) in NotifyFirst(s, intern, recs).pkeys
  {
  }

  /**
   * A full cycle from an initialized context: step_begin, then the first-batch
   * notify. A delta read then reports one row per distinct primary key of the
   * batch, and the flag is up.
   */
  lemma FirstCycleCount(s: DeltaState, intern: Scalar -> Scalar, recs: seq<Record>)
    requires s.isInit && Injective(intern)
    ensures var t := NotifyFirst(StepBegin(s), intern, recs);
      t.hasDelta && |t.pkeys| == |PrimaryKeys(recs)| && !t.rowsChanged
  {
    BatchKeyCount(intern, recs);
  }

  /** Same for a later batch whose tags are all known. */
  lemma CycleCount(s: DeltaState, intern: Scalar -> Scalar, recs: seq<Record>)
    requires s.isInit && Injective(intern)
    requires forall i :: 0 <= i < |recs| ==> KnownOp(recs[i].op)
    ensures var (t, outcome) := Notify(StepBegin(s), intern, recs);
      outcome == Notified && |t.pkeys| == |PrimaryKeys(recs)| && (t.hasDelta <==> recs != [])
  {
    BatchKeyCount(intern, recs);
    if recs != [] {
      assert intern(recs[0].pkey) in InternedKeys(intern, recs);
    }
  }

  /**
   * Reading the delta only drops the flag: the key set and the "rows changed"
   * flag survive, so a second read with no step_begin in between reports the
   * same keys and the same "rows changed" value again.
   */
  lemma ReadKeepsKeys(s: DeltaState)
    ensures DropDeltaFlag(s).pkeys == s.pkeys && DropDeltaFlag(s).rowsChanged == s.rowsChanged
    ensures !DropDeltaFlag(s).hasDelta
    ensures DropDeltaFlag(DropDeltaFlag(s)) == DropDeltaFlag(s)
  {
  }

  /** No operation of the unpivoted context ever raises either "changed" flag. */
  lemma ChangedFlagsOnlyFall(s: DeltaState, intern: Scalar -> Scalar, recs: seq<Record>, pkey: Scalar)
    requires !s.rowsChanged && !s.columnsChanged
    ensures !Init(s).rowsChanged && !Init(s).columnsChanged
    ensures !StepBegin(s).rowsChanged && !StepBegin(s).columnsChanged
    ensures !AddDeltaPkey(s, pkey).rowsChanged && !AddDeltaPkey(s, pkey).columnsChanged
    ensures !NotifyFirst(s, intern, recs).rowsChanged && !NotifyFirst(s, intern, recs).columnsChanged
    ensures !Notify(s, intern, recs).0.rowsChanged && !Notify(s, intern, recs).0.columnsChanged
    ensures !DropDeltaFlag(s).rowsChanged && !DropDeltaFlag(s).columnsChanged
  {
  }
}
