/**
 * The message-chaining store of ApplicationManagerImpl as a value:
 * connection key -> mobile correlation id -> HMI correlation id -> record.
 * Several HMI slots may share one MessageChaining record (the re-use branch
 * of AddMessageChain), so the nested maps hold record ids into a record
 * table; a decrement through one slot is then seen through its siblings.
 * Each operation of the store is a function here; the class
 * ApplicationManager.ApplicationManagerImpl implements them imperatively and
 * is proved against them.
 */
module ChainStore {
  import opened Common
  import opened OrderedKeys
  import opened MessageChaining

  type RecordId = nat

  /** HMI correlation id -> shared record */
  type HmiRequest = map<Uint32, RecordId>
  /** mobile correlation id -> the HMI legs of that mobile request */
  type MobileRequest = map<Uint32, HmiRequest>
  /** connection key -> the mobile requests of that connection */
  type MessageChain = map<Uint32, MobileRequest>

  datatype Store = Store(chains: MessageChain, records: map<RecordId, Chain>, nextRecord: RecordId)

  /** The store for a freshly constructed manager. */
  const EmptyStore := Store(map[], map[], 0)

  /**
   * Every slot refers to a live record, and the record under [c][m][h]
   * belongs to mobile request (c, m); record ids below nextRecord are used.
   * Hence records are shared only among the slots of one mobile request.
   */
  ghost predicate Valid(s: Store) {
    && (forall id :: id in s.records ==> id < s.nextRecord)
    && (forall c, m, h :: c in s.chains && m in s.chains[c] && h in s.chains[c][m] ==>
          Owned(s, c, m, s.chains[c][m][h]))
  }

  ghost predicate Owned(s: Store, c: int, m: int, id: RecordId) {
    id in s.records && s.records[id].connectionKey == c && s.records[id].correlationId == m
  }

  /** Mobile request (c, m) has a slot for HMI correlation id `hmi`. */
  ghost predicate Hit(s: Store, hmi: int, c: int, m: int) {
    c in s.chains && m in s.chains[c] && hmi in s.chains[c][m]
  }

  /** All (connection key, mobile correlation id) entries of the store. */
  ghost function AllPairs(s: Store): set<(int, int)> {
    set c, m | c in s.chains && m in s.chains[c] :: (c, m)
  }

  ghost function HitPairs(s: Store, hmi: int): set<(int, int)> {
    set c, m | c in s.chains && m in s.chains[c] && hmi in s.chains[c][m] :: (c, m)
  }

  /**
   * The entries of `chains` in the order the two nested iterators of
   * GetMessageChain and DecreaseMessageChain visit them: ascending
   * connection key, then ascending mobile correlation id.
   */
  method ListEntries(chains: MessageChain) returns (ps: seq<(Uint32, Uint32)>)
    ensures LexAscending(ps)
    ensures forall c, m :: (c, m) in ps <==> c in chains && m in chains[c]
  {
    var cs := SortedKeys(chains.Keys);
    ps := [];
    var i := 0;
    while i < |cs|
      invariant 0 <= i <= |cs|
      invariant LexAscending(ps)
      invariant forall c, m :: (c, m) in ps <==> c in cs[..i] && c in chains && m in chains[c]
      invariant forall k :: 0 <= k < |ps| ==> i < |cs| ==> ps[k].0 < cs[i]
    {
      assert cs[i] in cs;
      assert cs[i] in chains.Keys;
      var c: Uint32 := cs[i];
      var ms := SortedKeys(chains[c].Keys);
      var j := 0;
      ghost var before := ps;
      while j < |ms|
        invariant 0 <= j <= |ms|
        invariant LexAscending(ps)
        invariant forall c', m :: (c', m) in ps <==> (c', m) in before || (c' == c && m in ms[..j])
        invariant forall k :: 0 <= k < |ps| ==> ps[k].0 <= c
        invariant forall k, j' :: 0 <= k < |ps| && j <= j' < |ms| ==> ps[k].0 < c || ps[k].1 < ms[j']
      {
        assert ms[j] in ms;
        assert ms[j] in chains[c].Keys;
        var m: Uint32 := ms[j];
        ps := ps + [(c, m)];
        j := j + 1;
      }
      i := i + 1;
    }
  }

  // ---------------------------------------------------------------- GetMessageChain

  /**
   * GetMessageChain: the record under the first mobile request, in
   * iteration order (ascending connection key, then ascending mobile
   * correlation id), that has a slot for `hmi`.
   */
  ghost function Lookup(s: Store, hmi: int): (r: Option<Chain>)
    requires Valid(s)
    ensures r.Some? <==> exists c, m :: Hit(s, hmi, c, m)
    ensures r.Some? ==> exists c, m :: Hit(s, hmi, c, m) && r.value == s.records[s.chains[c][m][hmi]]
  {
    var hits := HitPairs(s, hmi);
    if hits == {} then
      assert forall c, m :: Hit(s, hmi, c, m) ==> (c, m) in hits;
      None
    else
      var p := LexMin(hits);
      assert Hit(s, hmi, p.0, p.1);
      Some(s.records[s.chains[p.0][p.1][hmi]])
  }

  // ---------------------------------------------------------------- AddMessageChain

  /**
   * AddMessageChain without a chain: a new record for (c, m) under slot
   * [c][m][h], creating the connection and mobile-request levels when
   * missing and overwriting an existing slot h.
   */
  function AddNewLeg(s: Store, c: Uint32, m: Uint32, h: Uint32, initialCounter: nat, data: Option<Payload>): (r: Store)
    requires Valid(s)
    ensures Valid(r)
    ensures Hit(r, h, c, m) && r.records[r.chains[c][m][h]] == NewChain(c, m, initialCounter, data)
    ensures r.chains[c][m][h] !in s.records
    ensures r.chains.Keys == s.chains.Keys + {c}
    ensures r.chains[c].Keys == (if c in s.chains then s.chains[c].Keys else {}) + {m}
    ensures forall c' :: c' in s.chains && c' != c ==> r.chains[c'] == s.chains[c']
    ensures r.chains[c][m].Keys == (if HasEntry(s, m, c) then s.chains[c][m].Keys else {}) + {h}
    ensures forall j :: j != h && Hit(s, j, c, m) ==> r.chains[c][m][j] == s.chains[c][m][j]
    ensures forall c', m' :: c' in s.chains && m' in s.chains[c'] && (c' != c || m' != m) ==>
              c' in r.chains && m' in r.chains[c'] && r.chains[c'][m'] == s.chains[c'][m']
    ensures forall id :: id in s.records ==> id in r.records && r.records[id] == s.records[id]
    ensures forall j, c', m' :: c' != c || m' != m ==> (Hit(r, j, c', m') <==> Hit(s, j, c', m'))
  {
    NewLegValid(s, c, m, h, initialCounter, data);
    NewLegSparesOthers(s, c, m, h, initialCounter, data);
    NewLegStore(s, c, m, h, initialCounter, data)
  }

  /** The store AddNewLeg builds. */
  function NewLegStore(s: Store, c: Uint32, m: Uint32, h: Uint32, initialCounter: nat, data: Option<Payload>): Store {
    var conn: MobileRequest := if c in s.chains then s.chains[c] else map[];
    var mob: HmiRequest := if m in conn then conn[m] else map[];
    Store(s.chains[c := conn[m := mob[h := s.nextRecord]]],
          s.records[s.nextRecord := NewChain(c, m, initialCounter, data)],
          s.nextRecord + 1)
  }

  lemma NewLegValid(s: Store, c: Uint32, m: Uint32, h: Uint32, initialCounter: nat, data: Option<Payload>)
    requires Valid(s)
    ensures Valid(NewLegStore(s, c, m, h, initialCounter, data))
  {
  }

  lemma NewLegSparesOthers(s: Store, c: Uint32, m: Uint32, h: Uint32, initialCounter: nat, data: Option<Payload>)
    ensures var r := NewLegStore(s, c, m, h, initialCounter, data);
            forall c', m' :: c' in s.chains && m' in s.chains[c'] && (c' != c || m' != m) ==>
              c' in r.chains && m' in r.chains[c'] && r.chains[c'][m'] == s.chains[c'][m']
  {
  }

  /** The HMI slots of mobile request (c, m) whose record equals `msg`. */
  ghost function EqualSlots(s: Store, c: int, m: int, msg: Chain): set<int>
    requires Valid(s)
  {
    if c in s.chains && m in s.chains[c] then
      set h | h in s.chains[c][m] && SameChain(s.records[s.chains[c][m][h]], msg)
    else {}
  }

  /**
   * The slot of (c, m) that the re-use branch of AddMessageChain picks: the
   * first, by ascending HMI correlation id, whose record equals `msg`.
   */
  ghost function FirstEqualSlot(s: Store, c: int, m: int, msg: Chain): (j: Option<int>)
    requires Valid(s)
    ensures j.None? <==> forall k :: Hit(s, k, c, m) ==> !SameChain(s.records[s.chains[c][m][k]], msg)
    ensures j.Some? ==> && Hit(s, j.value, c, m) && SameChain(s.records[s.chains[c][m][j.value]], msg)
                        && forall k :: Hit(s, k, c, m) && SameChain(s.records[s.chains[c][m][k]], msg) ==> j.value <= k
  {
    var eq := EqualSlots(s, c, m, msg);
    assert forall k :: Hit(s, k, c, m) && SameChain(s.records[s.chains[c][m][k]], msg) ==> k in eq;
    if eq == {} then None else Some(Min(eq))
  }

  /**
   * AddMessageChain with a chain: the record of FirstEqualSlot is shared
   * under slot h and returned; without such a slot nothing changes and no
   * record is returned.
   */
  ghost function AddReuse(s: Store, c: Uint32, m: Uint32, h: Uint32, msg: Chain): (r: (Store, Option<Chain>))
    requires Valid(s)
    ensures Valid(r.0) && r.0.records == s.records && r.0.nextRecord == s.nextRecord
    ensures r.1.Some? <==> FirstEqualSlot(s, c, m, msg).Some?
    ensures r.1.None? ==> r.0 == s
  {
    match FirstEqualSlot(s, c, m, msg)
    case None => (s, None)
    case Some(j) =>
      var id := s.chains[c][m][j];
      var slots: HmiRequest := s.chains[c][m][h := id];
      var mobs: MobileRequest := s.chains[c][m := slots];
      (s.(chains := s.chains[c := mobs]), Some(s.records[id]))
  }

  /**
   * A successful re-use makes slot h share the record of the chosen slot j
   * and returns that record, which equals `msg`; every other slot and entry
   * is as before.
   */
  lemma AddReuseShares(s: Store, c: Uint32, m: Uint32, h: Uint32, msg: Chain)
    requires Valid(s) && FirstEqualSlot(s, c, m, msg).Some?
    ensures var r := AddReuse(s, c, m, h, msg); var j := FirstEqualSlot(s, c, m, msg).value;
      && Hit(r.0, h, c, m) && r.0.chains[c][m][h] == s.chains[c][m][j]
      && r.1 == Some(s.records[s.chains[c][m][j]]) && SameChain(r.1.value, msg)
      && r.0.chains.Keys == s.chains.Keys && r.0.chains[c].Keys == s.chains[c].Keys
      && r.0.chains[c][m].Keys == s.chains[c][m].Keys + {h}
      && (forall c' :: c' in s.chains && c' != c ==> r.0.chains[c'] == s.chains[c'])
      && (forall j, c', m' :: c' != c || m' != m ==> (Hit(r.0, j, c', m') <==> Hit(s, j, c', m')))
      && (forall k :: k != h && Hit(s, k, c, m) ==> r.0.chains[c][m][k] == s.chains[c][m][k])
      && (forall c', m' :: c' in s.chains && m' in s.chains[c'] && (c' != c || m' != m) ==>
            r.0.chains[c'][m'] == s.chains[c'][m'])
  {
  }

  // ---------------------------------------------------------------- DecreaseMessageChain

  /** The record under slot [c][m][hmi] reaches 0 when decremented. */
  ghost predicate Completes(s: Store, hmi: int, c: int, m: int) {
    && Hit(s, hmi, c, m)
    && s.chains[c][m][hmi] in s.records
    && Decremented(s.records[s.chains[c][m][hmi]]).counter == 0
  }

  /** Some entry in `done` has its `hmi` slot on record `id`. */
  ghost predicate HitsRecord(s: Store, hmi: int, done: set<(int, int)>, id: RecordId) {
    exists p :: p in done && Hit(s, hmi, p.0, p.1) && s.chains[p.0][p.1][hmi] == id
  }

  /**
   * The scan of DecreaseMessageChain after it has visited the entries in
   * `done`: each visited entry with an `hmi` slot has that slot's record
   * decremented, and is removed when the counter reached 0.
   */
  ghost function DecreaseOver(s: Store, hmi: int, done: set<(int, int)>): (r: Store)
    requires Valid(s)
    ensures Valid(r) && r.records.Keys == s.records.Keys && r.chains.Keys == s.chains.Keys
    ensures forall c, m :: c in r.chains && m in r.chains[c] ==> m in s.chains[c] && r.chains[c][m] == s.chains[c][m]
    ensures forall j, c, m :: Hit(r, j, c, m) ==> Hit(s, j, c, m)
  {
    Store(ErasedOver(s, hmi, done), RecordsOver(s, hmi, done), s.nextRecord)
  }

  /** The entries left after visiting `done`: those visited entries whose counter reached 0 are gone. */
  ghost function ErasedOver(s: Store, hmi: int, done: set<(int, int)>): MessageChain {
    map c | c in s.chains :: ErasedIn(s, hmi, done, c)
  }

  ghost function ErasedIn(s: Store, hmi: int, done: set<(int, int)>, c: Uint32): MobileRequest
    requires c in s.chains
  {
    map m | m in s.chains[c] && !((c, m) in done && Completes(s, hmi, c, m)) :: s.chains[c][m]
  }

  /** The records after visiting `done`: each record hit by a visited entry is decremented once. */
  ghost function RecordsOver(s: Store, hmi: int, done: set<(int, int)>): map<RecordId, Chain> {
    map id | id in s.records :: if HitsRecord(s, hmi, done, id) then Decremented(s.records[id]) else s.records[id]
  }

  /** Before the scan visits anything the store is untouched. */
  lemma DecreaseOverNothing(s: Store, hmi: int)
    requires Valid(s)
    ensures ErasedOver(s, hmi, {}) == s.chains && RecordsOver(s, hmi, {}) == s.records
  {
    forall c | c in s.chains ensures ErasedIn(s, hmi, {}, c) == s.chains[c] { }
    assert ErasedOver(s, hmi, {}) == s.chains;
    assert RecordsOver(s, hmi, {}) == s.records;
  }

  /** No entry other than (c, m) has its `hmi` slot on the record of [c][m][hmi]. */
  lemma RecordOfOneEntry(s: Store, hmi: int, done: set<(int, int)>, c: int, m: int)
    requires Valid(s) && Hit(s, hmi, c, m) && (c, m) !in done
    ensures !HitsRecord(s, hmi, done, s.chains[c][m][hmi])
  {
    forall p | p in done && Hit(s, hmi, p.0, p.1) ensures s.chains[p.0][p.1][hmi] != s.chains[c][m][hmi] {
      assert Owned(s, p.0, p.1, s.chains[p.0][p.1][hmi]);
    }
  }

  lemma StepRecords(s: Store, hmi: int, done: set<(int, int)>, c: int, m: int)
    requires Valid(s) && Hit(s, hmi, c, m) && (c, m) !in done
    ensures var id := s.chains[c][m][hmi];
      && RecordsOver(s, hmi, done)[id] == s.records[id]
      && RecordsOver(s, hmi, done + {(c, m)}) == RecordsOver(s, hmi, done)[id := Decremented(s.records[id])]
  {
    var id := s.chains[c][m][hmi];
    RecordOfOneEntry(s, hmi, done, c, m);
    forall id' | id' in s.records
      ensures HitsRecord(s, hmi, done + {(c, m)}, id') <==> HitsRecord(s, hmi, done, id') || id' == id
    {
      if id' == id { assert HitsRecord(s, hmi, done + {(c, m)}, id'); }
    }
  }

  lemma StepRecordsMiss(s: Store, hmi: int, done: set<(int, int)>, c: int, m: int)
    requires !Hit(s, hmi, c, m)
    ensures RecordsOver(s, hmi, done + {(c, m)}) == RecordsOver(s, hmi, done)
  {
    forall id' | id' in s.records
      ensures HitsRecord(s, hmi, done + {(c, m)}, id') <==> HitsRecord(s, hmi, done, id')
    {
    }
  }

  lemma StepConnection(s: Store, hmi: int, done: set<(int, int)>, c: int, m: int, c': Uint32)
    requires c' in s.chains
    ensures ErasedIn(s, hmi, done + {(c, m)}, c')
         == if Completes(s, hmi, c, m) && c' == c then ErasedIn(s, hmi, done, c') - {m} else ErasedIn(s, hmi, done, c')
  {
  }

  lemma StepChains(s: Store, hmi: int, done: set<(int, int)>, c: Uint32, m: Uint32)
    requires c in s.chains && m in s.chains[c] && (c, m) !in done
    ensures var e := ErasedOver(s, hmi, done);
      && c in e && m in e[c] && e[c][m] == s.chains[c][m]
      && ErasedOver(s, hmi, done + {(c, m)}) == if Completes(s, hmi, c, m) then e[c := e[c] - {m}] else e
  {
    forall c' | c' in s.chains
      ensures ErasedOver(s, hmi, done + {(c, m)})[c']
           == if Completes(s, hmi, c, m) && c' == c then ErasedOver(s, hmi, done)[c] - {m}
              else ErasedOver(s, hmi, done)[c']
    {
      StepConnection(s, hmi, done, c, m, c');
    }
  }

  /**
   * One step of the scan: visiting entry (c, m) after the entries in `done`.
   * The visited entry is still as in `s`, and no earlier entry touched its
   * record (records belong to one entry); visiting it decrements that record
   * and erases the entry when the counter reaches 0.
   */
  lemma DecreaseOverStep(s: Store, hmi: int, done: set<(int, int)>, c: Uint32, m: Uint32)
    requires Valid(s) && c in s.chains && m in s.chains[c] && (c, m) !in done
    ensures var t := DecreaseOver(s, hmi, done);
      c in t.chains && m in t.chains[c] && t.chains[c][m] == s.chains[c][m]
    ensures !Hit(s, hmi, c, m) ==> DecreaseOver(s, hmi, done + {(c, m)}) == DecreaseOver(s, hmi, done)
    ensures Hit(s, hmi, c, m) ==>
      var t := DecreaseOver(s, hmi, done); var t' := DecreaseOver(s, hmi, done + {(c, m)});
      var id := s.chains[c][m][hmi];
      && t.records[id] == s.records[id]
      && t'.records == t.records[id := Decremented(s.records[id])]
      && t'.nextRecord == t.nextRecord
      && t'.chains == if Completes(s, hmi, c, m) then t.chains[c := t.chains[c] - {m}] else t.chains
  {
    StepChains(s, hmi, done, c, m);
    if Hit(s, hmi, c, m) {
      StepRecords(s, hmi, done, c, m);
    } else {
      StepRecordsMiss(s, hmi, done, c, m);
    }
  }

  /** DecreaseMessageChain's new store: the scan over every entry. */
  ghost function Decrease(s: Store, hmi: int): Store
    requires Valid(s)
  {
    DecreaseOver(s, hmi, AllPairs(s))
  }

  ghost function CompletingPairs(s: Store, hmi: int, done: set<(int, int)>): set<(int, int)> {
    set p | p in done && Completes(s, hmi, p.0, p.1)
  }

  lemma CompletingStep(s: Store, hmi: int, done: set<(int, int)>, c: int, m: int)
    ensures CompletingPairs(s, hmi, done + {(c, m)})
         == if Completes(s, hmi, c, m) then CompletingPairs(s, hmi, done) + {(c, m)} else CompletingPairs(s, hmi, done)
  {
  }

  /** What the scan reports after visiting the entries `done`: the last completing one among them. */
  ghost function ReportedOver(s: Store, hmi: int, done: set<(int, int)>): Option<int>
    requires Valid(s)
  {
    var ps := CompletingPairs(s, hmi, done);
    if ps == {} then None
    else
      var p := LexMax(ps);
      Some(s.records[s.chains[p.0][p.1][hmi]].correlationId)
  }

  /** Before visiting anything the scan reports nothing. */
  lemma ReportedNothing(s: Store, hmi: int)
    requires Valid(s)
    ensures ReportedOver(s, hmi, {}).None?
  {
    assert CompletingPairs(s, hmi, {}) == {};
  }

  /** After visiting every entry the scan reports CompletedMobile. */
  lemma ReportedAll(s: Store, hmi: int)
    requires Valid(s)
    ensures ReportedOver(s, hmi, AllPairs(s)) == CompletedMobile(s, hmi)
  {
  }

  /**
   * What DecreaseMessageChain reports: the correlation id of the record of
   * the last entry, in iteration order, whose counter reached 0 (the later
   * ones overwrite the out-parameter), or None when none did.
   */
  ghost function CompletedMobile(s: Store, hmi: int): (r: Option<int>)
    requires Valid(s)
    ensures r.Some? <==> exists c, m :: Completes(s, hmi, c, m)
    ensures r.Some? ==> exists c :: && Completes(s, hmi, c, r.value)
                                    && forall c', m' :: Completes(s, hmi, c', m') ==> LexLe((c', m'), (c, r.value))
  {
    var ps := CompletingPairs(s, hmi, AllPairs(s));
    assert forall c, m :: Completes(s, hmi, c, m) ==> (c, m) in AllPairs(s) && (c, m) in ps;
    assert ps != {} ==> Completes(s, hmi, LexMax(ps).0, LexMax(ps).1);
    ReportedOver(s, hmi, AllPairs(s))
  }

  /**
   * At an entry with an `hmi` slot, Decrease decrements the slot's record
   * (seen through every sibling slot sharing it) and erases the whole entry,
   * all sibling slots included, exactly when the counter reaches 0.
   */
  lemma DecreaseAtEntry(s: Store, hmi: int, c: int, m: int)
    requires Valid(s) && Hit(s, hmi, c, m)
    ensures var d := Decrease(s, hmi); var id := s.chains[c][m][hmi];
      && id in d.records && d.records[id] == Decremented(s.records[id])
      && c in d.chains
      && (Completes(s, hmi, c, m) <==> d.records[id].counter == 0)
      && (Completes(s, hmi, c, m) <==> m !in d.chains[c])
      && (m in d.chains[c] ==> d.chains[c][m] == s.chains[c][m])
  {
    assert (c, m) in AllPairs(s);
    assert HitsRecord(s, hmi, AllPairs(s), s.chains[c][m][hmi]);
  }

  /** An entry without an `hmi` slot keeps its slots and their records. */
  lemma DecreaseSparesOthers(s: Store, hmi: int, c: int, m: int)
    requires Valid(s) && c in s.chains && m in s.chains[c] && !Hit(s, hmi, c, m)
    ensures var d := Decrease(s, hmi);
      && c in d.chains && m in d.chains[c] && d.chains[c][m] == s.chains[c][m]
      && forall h :: h in s.chains[c][m] ==> d.records[s.chains[c][m][h]] == s.records[s.chains[c][m][h]]
  {
    forall h | h in s.chains[c][m]
      ensures !HitsRecord(s, hmi, AllPairs(s), s.chains[c][m][h])
    {
    }
  }

  /** A late or duplicate HMI response (an id no entry holds) changes nothing and completes nothing. */
  lemma DecreaseUnknown(s: Store, hmi: int)
    requires Valid(s) && forall c, m :: !Hit(s, hmi, c, m)
    ensures Decrease(s, hmi) == s && CompletedMobile(s, hmi) == None
  {
    var d := Decrease(s, hmi);
    forall c | c in s.chains ensures d.chains[c] == s.chains[c] {
      assert d.chains[c].Keys == s.chains[c].Keys;
    }
    assert d.chains == s.chains;
    forall id | id in s.records ensures d.records[id] == s.records[id] {
      assert !HitsRecord(s, hmi, AllPairs(s), id);
    }
    assert d.records == s.records;
  }

  /** `h` is held by entry (c, m) only: the normal case, HMI ids coming from the allocator. */
  ghost predicate OnlyAt(s: Store, h: int, c: int, m: int) {
    forall c', m' :: Hit(s, h, c', m') ==> c' == c && m' == m
  }

  lemma LookupOnlyAt(s: Store, h: int, c: int, m: int)
    requires Valid(s) && Hit(s, h, c, m) && OnlyAt(s, h, c, m)
    ensures Lookup(s, h) == Some(s.records[s.chains[c][m][h]])
  {
  }

  lemma CompletedOnlyAt(s: Store, h: int, c: int, m: int)
    requires Valid(s) && Hit(s, h, c, m) && OnlyAt(s, h, c, m)
    ensures CompletedMobile(s, h) == if Completes(s, h, c, m) then Some(m) else None
  {
  }

  /** A fresh HMI id registered as a new leg is found afterwards, with exactly the record created. */
  lemma LookupAfterAddNewLeg(s: Store, c: Uint32, m: Uint32, h: Uint32, initialCounter: nat, data: Option<Payload>)
    requires Valid(s) && forall c', m' :: !Hit(s, h, c', m')
    ensures Lookup(AddNewLeg(s, c, m, h, initialCounter, data), h) == Some(NewChain(c, m, initialCounter, data))
  {
    var r := AddNewLeg(s, c, m, h, initialCounter, data);
    LookupOnlyAt(r, h, c, m);
  }

  /**
   * Once a mobile request is removed, an HMI id that only it held is not
   * found and its late response changes nothing: never a stale match.
   */
  lemma RemoveLeavesNoStaleMatch(s: Store, m: Uint32, c: Uint32, h: int)
    requires Valid(s) && OnlyAt(s, h, c, m)
    ensures Lookup(RemoveEntry(s, m, c), h) == None
    ensures Decrease(RemoveEntry(s, m, c), h) == RemoveEntry(s, m, c)
    ensures CompletedMobile(RemoveEntry(s, m, c), h) == None
  {
    var r := RemoveEntry(s, m, c);
    DecreaseUnknown(r, h);
  }

  /** Two HMI slots h1, h2 of entry (c, m), held by no other entry and sharing one record. */
  ghost predicate SharedLegs(s: Store, c: int, m: int, h1: int, h2: int) {
    && Hit(s, h1, c, m) && Hit(s, h2, c, m) && OnlyAt(s, h1, c, m) && OnlyAt(s, h2, c, m)
    && s.chains[c][m][h1] == s.chains[c][m][h2]
  }

  /**
   * A response on one of two shared legs: when the counter does not reach
   * 0 the other leg still finds the record, now decremented; when it does,
   * the entry is reported and neither leg is found any more.
   */
  lemma DecreaseSharedLeg(s: Store, c: int, m: int, h1: int, h2: int)
    requires Valid(s) && SharedLegs(s, c, m, h1, h2)
    ensures var d := Decrease(s, h1); var id := s.chains[c][m][h1];
      && CompletedMobile(s, h1) == (if Completes(s, h1, c, m) then Some(m) else None)
      && (!Completes(s, h1, c, m) ==> SharedLegs(d, c, m, h2, h1) && d.chains[c][m][h2] == id
                                      && d.records[id] == Decremented(s.records[id])
                                      && Lookup(d, h2) == Some(Decremented(s.records[id])))
      && (Completes(s, h1, c, m) ==> forall c', m' :: !Hit(d, h1, c', m') && !Hit(d, h2, c', m'))
  {
    CompletedOnlyAt(s, h1, c, m);
    DecreaseAtEntry(s, h1, c, m);
    if !Completes(s, h1, c, m) {
      LookupOnlyAt(Decrease(s, h1), h2, c, m);
    }
  }

  /** A new leg for an entry (c, m) that did not exist: its only slot is h1, held by no other entry. */
  lemma NewLegAlone(s: Store, c: Uint32, m: Uint32, h1: Uint32, h2: Uint32, initialCounter: nat, data: Option<Payload>)
    requires Valid(s) && h1 != h2 && !HasEntry(s, m, c)
    requires forall c', m' :: !Hit(s, h1, c', m') && !Hit(s, h2, c', m')
    ensures var r := AddNewLeg(s, c, m, h1, initialCounter, data);
      && r.chains[c][m].Keys == {h1} && OnlyAt(r, h1, c, m)
      && r.records[r.chains[c][m][h1]] == NewChain(c, m, initialCounter, data)
      && forall c', m' :: !Hit(r, h2, c', m')
  {
  }

  /** Re-using the record of the only slot h1 of (c, m) for a fresh HMI id h2. */
  lemma ReuseOnlySlot(s: Store, c: Uint32, m: Uint32, h1: Uint32, h2: Uint32, leg: Chain)
    requires Valid(s) && Hit(s, h1, c, m) && s.chains[c][m].Keys == {h1} && OnlyAt(s, h1, c, m)
    requires s.records[s.chains[c][m][h1]] == leg && forall c', m' :: !Hit(s, h2, c', m')
    ensures var r := AddReuse(s, c, m, h2, leg);
      && r.1 == Some(leg) && SharedLegs(r.0, c, m, h1, h2) && r.0.records[r.0.chains[c][m][h1]] == leg
  {
    assert FirstEqualSlot(s, c, m, leg) == Some(h1);
    AddReuseShares(s, c, m, h2, leg);
  }

  /**
   * The fan-out of one mobile request (c, m) to two HMI requests h1 and h2
   * with initial counter 2: the first leg is added and the second shares
   * its record; the first response completes nothing, and the second leg
   * then finds the record with counter 1.
   */
  lemma TwoLegFanOut(s: Store, c: Uint32, m: Uint32, h1: Uint32, h2: Uint32, data: Option<Payload>)
    requires Valid(s) && h1 != h2 && !HasEntry(s, m, c)
    requires forall c', m' :: !Hit(s, h1, c', m') && !Hit(s, h2, c', m')
    ensures var leg := NewChain(c, m, 2, data);
            var s2 := AddReuse(AddNewLeg(s, c, m, h1, 2, data), c, m, h2, leg);
            var s3 := Decrease(s2.0, h1);
            && s2.1 == Some(leg)
            && CompletedMobile(s2.0, h1) == None
            && SharedLegs(s3, c, m, h2, h1)
            && s3.records[s3.chains[c][m][h2]] == leg.(counter := 1)
            && Lookup(s3, h2) == Some(leg.(counter := 1))
  {
    var leg := NewChain(c, m, 2, data);
    NewLegAlone(s, c, m, h1, h2, 2, data);
    var s1 := AddNewLeg(s, c, m, h1, 2, data);
    ReuseOnlySlot(s1, c, m, h1, h2, leg);
    var s2 := AddReuse(s1, c, m, h2, leg).0;
    assert s2.records[s2.chains[c][m][h1]] == leg && !Completes(s2, h1, c, m);
    DecreaseSharedLeg(s2, c, m, h1, h2);
  }

  /** The last response on two shared legs whose counter is 1: reported, and both legs gone. */
  lemma LastSharedLeg(s: Store, c: int, m: int, h1: int, h2: int)
    requires Valid(s) && SharedLegs(s, c, m, h1, h2) && s.records[s.chains[c][m][h1]].counter == 1
    ensures CompletedMobile(s, h1) == Some(m)
    ensures Lookup(Decrease(s, h1), h1) == None && Lookup(Decrease(s, h1), h2) == None
  {
    DecreaseSharedLeg(s, c, m, h1, h2);
  }

  /**
   * The end of the two-leg fan-out: the second response completes (c, m),
   * reports m, and afterwards neither HMI id is found.
   */
  lemma TwoLegFanOutCompletes(s: Store, c: Uint32, m: Uint32, h1: Uint32, h2: Uint32, data: Option<Payload>)
    requires Valid(s) && h1 != h2 && !HasEntry(s, m, c)
    requires forall c', m' :: !Hit(s, h1, c', m') && !Hit(s, h2, c', m')
    ensures var leg := NewChain(c, m, 2, data);
            var s2 := AddReuse(AddNewLeg(s, c, m, h1, 2, data), c, m, h2, leg);
            var s3 := Decrease(s2.0, h1);
            var s4 := Decrease(s3, h2);
            && CompletedMobile(s3, h2) == Some(m)
            && Lookup(s4, h1) == None && Lookup(s4, h2) == None
  {
    TwoLegFanOut(s, c, m, h1, h2, data);
    var leg := NewChain(c, m, 2, data);
    LastSharedLeg(Decrease(AddReuse(AddNewLeg(s, c, m, h1, 2, data), c, m, h2, leg).0, h1), c, m, h2, h1);
  }

  // ---------------------------------------------------------------- RemoveMobileRequestFromMessageChain

  /** Whether RemoveMobileRequestFromMessageChain finds the entry (c, m). */
  predicate HasEntry(s: Store, m: Uint32, c: Uint32) {
    c in s.chains && m in s.chains[c]
  }

  /** The store after RemoveMobileRequestFromMessageChain: entry (c, m) erased, the connection entry kept. */
  function RemoveEntry(s: Store, m: Uint32, c: Uint32): (r: Store)
    requires Valid(s)
    ensures Valid(r) && r.records == s.records && r.nextRecord == s.nextRecord
    ensures !HasEntry(r, m, c)
    ensures r.chains.Keys == s.chains.Keys
    ensures c in s.chains ==> r.chains[c].Keys == s.chains[c].Keys - {m}
    ensures forall c' :: c' in s.chains && c' != c ==> r.chains[c'] == s.chains[c']
    ensures forall c', m' :: c' in s.chains && m' in s.chains[c'] && (c' != c || m' != m) ==>
              m' in r.chains[c'] && r.chains[c'][m'] == s.chains[c'][m']
    ensures !HasEntry(s, m, c) ==> r == s
    ensures forall j, c', m' :: c' != c || m' != m ==> (Hit(r, j, c', m') <==> Hit(s, j, c', m'))
  {
    if HasEntry(s, m, c) then s.(chains := s.chains[c := s.chains[c] - {m}]) else s
  }
}
