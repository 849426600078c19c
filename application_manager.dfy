/**
 * ApplicationManagerImpl: the HMI correlation-id allocator, the
 * message-chaining store, the audio-pass-thru flag, the correlation id ->
 * application id side table, the registered applications, the notification
 * list and the HMI capability state, with the operations that update them in
 * place.  The store operations are proved against the functions of
 * ChainStore over the abstract value ChainState().
 */
module ApplicationManager {
  import opened Common
  import opened OrderedKeys
  import opened CorrelationIds
  import opened MessageChaining
  import opened ChainStore
  import opened Applications

  /** hmi_apis::Common_Language::eType */
  type Language = int

  /** hmi_apis::Common_Language::INVALID_ENUM */
  const INVALID_ENUM: Language := -1

  /** A command in notification_list_, identified by its shared pointer. */
  type CommandId = nat

  /** The entries among the first `i` of `ps`. */
  ghost function Prefix(ps: seq<(Uint32, Uint32)>, i: nat): set<(int, int)>
    requires i <= |ps|
  {
    set p: (int, int) | p in ps[..i]
  }

  /**
   * What the scan of DecreaseMessageChain has reported after visiting the
   * entries `ps` in order: the record of the last completing one.
   */
  ghost function ReportedAlong(s: Store, hmi: int, ps: seq<(Uint32, Uint32)>): Option<int>
  {
    if ps == [] then None
    else
      var p := ps[|ps| - 1];
      if Completes(s, hmi, p.0, p.1) then Some(s.records[s.chains[p.0][p.1][hmi]].correlationId)
      else ReportedAlong(s, hmi, ps[..|ps| - 1])
  }

  /** std::list::erase of the first element equal to `x`, if there is one. */
  function RemoveFirst(s: seq<CommandId>, x: CommandId): seq<CommandId> {
    if s == [] then []
    else if s[0] == x then s[1..]
    else [s[0]] + RemoveFirst(s[1..], x)
  }

  /** The first occurrence, at `k`, is the one removed. */
  lemma {:induction false} RemoveFirstAt(s: seq<CommandId>, x: CommandId, k: nat)
    requires k < |s| && s[k] == x && x !in s[..k]
    ensures RemoveFirst(s, x) == s[..k] + s[k + 1..]
  {
    if k > 0 {
      assert s[1..][..k - 1] == s[1..k];
      RemoveFirstAt(s[1..], x, k - 1);
      assert s[..k] + s[k + 1..] == [s[0]] + (s[1..][..k - 1] + s[1..][k..]);
    }
  }

  /** Without an occurrence nothing is removed. */
  lemma {:induction false} RemoveFirstAbsent(s: seq<CommandId>, x: CommandId)
    requires x !in s
    ensures RemoveFirst(s, x) == s
  {
    if s != [] {
      RemoveFirstAbsent(s[1..], x);
    }
  }

  /** Exactly one occurrence of `x` is dropped when there is one, and nothing else changes in number. */
  lemma {:induction false} RemoveFirstCount(s: seq<CommandId>, x: CommandId)
    ensures multiset(RemoveFirst(s, x)) == multiset(s) - multiset{x}
    ensures |RemoveFirst(s, x)| == if x in s then |s| - 1 else |s|
  {
    if s != [] {
      RemoveFirstCount(s[1..], x);
      assert s == [s[0]] + s[1..];
      if s[0] != x {
        assert multiset(s) == multiset{s[0]} + multiset(s[1..]);
      }
    }
  }

  /** Removing a command just added, and not listed before, gives the list back. */
  lemma {:induction false} AddThenRemove(s: seq<CommandId>, x: CommandId)
    requires x !in s
    ensures RemoveFirst(s + [x], x) == s
  {
    if s != [] {
      assert (s + [x])[1..] == s[1..] + [x];
      AddThenRemove(s[1..], x);
    }
  }

  class ApplicationManagerImpl {
    /** message_chain_current_id_ (a static member: one manager is modelled) */
    var messageChainCurrentId: Uint32
    /** message_chaining_, its MessageChaining objects kept in chainRecords */
    var messageChaining: MessageChain
    var chainRecords: map<RecordId, Chain>
    var nextRecord: RecordId
    /** the counter a new MessageChaining starts with */
    const chainInitialCounter: nat

    var audioPassThruActive: bool
    /** appID_list_: mobile correlation id -> application id */
    var appIdList: map<Int32, Uint32>
    /** applications_ and application_list_ */
    var applications: map<int, Application>
    var applicationList: set<Application>
    /** the application ids passed to request_ctrl.terminateAppRequests, in order */
    var terminatedAppRequests: seq<int>
    var notificationList: seq<CommandId>
    var vrSessionStarted: bool
    const attenuatedSupported: bool

    // HMI capability state read by IsHMICapabilitiesInitialized
    var isVrReadyResponseReceived: bool
    var isTtsReadyResponseReceived: bool
    var isUiReadyResponseReceived: bool
    var isNaviReadyResponseReceived: bool
    var isIviReadyResponseReceived: bool
    var isVrCooperating: bool
    var isTtsCooperating: bool
    var isUiCooperating: bool
    var isIviCooperating: bool
    var vrSupportedLanguages: Option<seq<Language>>
    var ttsSupportedLanguages: Option<seq<Language>>
    var uiSupportedLanguages: Option<seq<Language>>
    var vrLanguage: Language
    var ttsLanguage: Language
    var uiLanguage: Language
    var vehicleType: Option<Payload>

    /** The message-chaining store as a value. */
    ghost function ChainState(): Store
      reads this`messageChaining, this`chainRecords, this`nextRecord
    {
      Store(messageChaining, chainRecords, nextRecord)
    }

    ghost predicate Valid()
      reads this`messageChaining, this`chainRecords, this`nextRecord
    {
      ChainStore.Valid(ChainState())
    }

    /** Every registered id names an application of application_list_, and no application under two ids. */
    ghost predicate RegistryConsistent()
      reads this
    {
      && (forall id :: id in applications ==> applications[id] in applicationList)
      && (forall i, j :: i in applications && j in applications && applications[i] == applications[j] ==> i == j)
    }

    constructor (chainInitialCounter: nat, attenuatedSupported: bool)
      ensures Valid() && RegistryConsistent()
      ensures ChainState() == EmptyStore && messageChainCurrentId == 0
      ensures this.chainInitialCounter == chainInitialCounter && this.attenuatedSupported == attenuatedSupported
      ensures !audioPassThruActive && !vrSessionStarted
      ensures appIdList == map[] && applications == map[] && applicationList == {}
      ensures terminatedAppRequests == [] && notificationList == []
      ensures vrLanguage == INVALID_ENUM && ttsLanguage == INVALID_ENUM && uiLanguage == INVALID_ENUM
      ensures vehicleType.None?
    {
      messageChainCurrentId := 0;
      messageChaining := map[];
      chainRecords := map[];
      nextRecord := 0;
      this.chainInitialCounter := chainInitialCounter;
      audioPassThruActive := false;
      appIdList := map[];
      applications := map[];
      applicationList := {};
      terminatedAppRequests := [];
      notificationList := [];
      vrSessionStarted := false;
      this.attenuatedSupported := attenuatedSupported;
      isVrReadyResponseReceived := false;
      isTtsReadyResponseReceived := false;
      isUiReadyResponseReceived := false;
      isNaviReadyResponseReceived := false;
      isIviReadyResponseReceived := false;
      isVrCooperating := false;
      isTtsCooperating := false;
      isUiCooperating := false;
      isIviCooperating := false;
      vrSupportedLanguages := None;
      ttsSupportedLanguages := None;
      uiSupportedLanguages := None;
      vrLanguage := INVALID_ENUM;
      ttsLanguage := INVALID_ENUM;
      uiLanguage := INVALID_ENUM;
      vehicleType := None;
    }

    // ------------------------------------------------------------ correlation ids

    method GetNextHMICorrelationID() returns (id: Uint32)
      modifies this`messageChainCurrentId
      ensures id == NextId(old(messageChainCurrentId)) && messageChainCurrentId == id
    {
      if messageChainCurrentId < MESSAGE_CHAIN_MAX_ID {
        messageChainCurrentId := messageChainCurrentId + 1;
      } else {
        messageChainCurrentId := 0;
      }
      id := messageChainCurrentId;
    }

    // ------------------------------------------------------------ message chaining

    /**
     * The search of the re-use branch of AddMessageChain: the HMI slots of
     * (c, m) in ascending order, stopping at the first whose record equals
     * `msg`.
     */
    method FindEqualSlot(c: Uint32, m: Uint32, msg: Chain) returns (j: Option<Uint32>)
      requires Valid() && c in messageChaining && m in messageChaining[c]
      ensures j.None? <==> FirstEqualSlot(ChainState(), c, m, msg).None?
      ensures j.Some? ==> j.value in messageChaining[c][m] && j.value == FirstEqualSlot(ChainState(), c, m, msg).value
    {
      var slots := messageChaining[c][m];
      var ks := SortedKeys(slots.Keys);
      var i := 0;
      while i < |ks|
        invariant 0 <= i <= |ks|
        invariant forall k :: 0 <= k < i ==> ks[k] in slots && !SameChain(chainRecords[slots[ks[k]]], msg)
      {
        assert ks[i] in ks;
        assert ks[i] in slots.Keys;
        var h: Uint32 := ks[i];
        if SameChain(chainRecords[slots[h]], msg) {
          var first := FirstEqualSlot(ChainState(), c, m, msg);
          assert first.Some? && first.value <= h;
          assert first.value in ks;
          assert first.value == h;
          return Some(h);
        }
        i := i + 1;
      }
      forall k | Hit(ChainState(), k, c, m) ensures !SameChain(chainRecords[slots[k]], msg) {
        assert k in ks;
      }
      return None;
    }

    method AddMessageChain(connectionKey: Uint32, correlationId: Uint32, hmiCorrelationId: Uint32,
                           msgChaining: Option<Chain>, data: Option<Payload>) returns (r: Option<Chain>)
      requires Valid()
      modifies this`messageChaining, this`chainRecords, this`nextRecord
      ensures Valid()
      ensures msgChaining.None? ==>
                && ChainState() == AddNewLeg(old(ChainState()), connectionKey, correlationId, hmiCorrelationId, chainInitialCounter, data)
                && r == Some(NewChain(connectionKey, correlationId, chainInitialCounter, data))
      ensures msgChaining.Some? ==>
                (ChainState(), r) == AddReuse(old(ChainState()), connectionKey, correlationId, hmiCorrelationId, msgChaining.value)
    {
      if msgChaining.None? {
        r := AddNewChainLeg(connectionKey, correlationId, hmiCorrelationId, data);
      } else {
        r := ReuseChainLeg(connectionKey, correlationId, hmiCorrelationId, msgChaining.value);
      }
    }

    /** The branch of AddMessageChain without a chain: a new record under a new slot. */
    method AddNewChainLeg(connectionKey: Uint32, correlationId: Uint32, hmiCorrelationId: Uint32, data: Option<Payload>)
      returns (r: Option<Chain>)
      requires Valid()
      modifies this`messageChaining, this`chainRecords, this`nextRecord
      ensures ChainState() == AddNewLeg(old(ChainState()), connectionKey, correlationId, hmiCorrelationId, chainInitialCounter, data)
      ensures r == Some(NewChain(connectionKey, correlationId, chainInitialCounter, data))
    {
      var chain := NewChain(connectionKey, correlationId, chainInitialCounter, data);
      var id := nextRecord;
      chainRecords := chainRecords[id := chain];
      nextRecord := nextRecord + 1;
      if connectionKey !in messageChaining {
        var hmiRequest: HmiRequest := map[hmiCorrelationId := id];
        var mobRequest: MobileRequest := map[correlationId := hmiRequest];
        messageChaining := messageChaining[connectionKey := mobRequest];
      } else if correlationId !in messageChaining[connectionKey] {
        var hmiRequest: HmiRequest := map[hmiCorrelationId := id];
        var mobRequest: MobileRequest := messageChaining[connectionKey][correlationId := hmiRequest];
        messageChaining := messageChaining[connectionKey := mobRequest];
      } else {
        var hmiRequest: HmiRequest := messageChaining[connectionKey][correlationId][hmiCorrelationId := id];
        var mobRequest: MobileRequest := messageChaining[connectionKey][correlationId := hmiRequest];
        messageChaining := messageChaining[connectionKey := mobRequest];
      }
      r := Some(chain);
    }

    /** The branch of AddMessageChain with a chain: share the record of an equal slot, if any. */
    method ReuseChainLeg(connectionKey: Uint32, correlationId: Uint32, hmiCorrelationId: Uint32, msg: Chain)
      returns (r: Option<Chain>)
      requires Valid()
      modifies this`messageChaining
      ensures (ChainState(), r) == AddReuse(old(ChainState()), connectionKey, correlationId, hmiCorrelationId, msg)
    {
      r := None;
      if connectionKey in messageChaining && correlationId in messageChaining[connectionKey] {
        var j := FindEqualSlot(connectionKey, correlationId, msg);
        if j.Some? {
          var id := messageChaining[connectionKey][correlationId][j.value];
          var hmiRequest: HmiRequest := messageChaining[connectionKey][correlationId][hmiCorrelationId := id];
          var mobRequest: MobileRequest := messageChaining[connectionKey][correlationId := hmiRequest];
          messageChaining := messageChaining[connectionKey := mobRequest];
          r := Some(chainRecords[id]);
        }
      }
    }

    /**
     * Visits the entries in iteration order; at each one with a slot for
     * `hmiCorrelationId` decrements the record and, when its counter
     * reaches 0, records its correlation id in `mobileCorrelationId`
     * (initially `prior`, the caller's variable) and erases the entry.
     */
    method DecreaseMessageChain(hmiCorrelationId: Uint32, prior: Uint32) returns (result: bool, mobileCorrelationId: Uint32)
      requires Valid()
      modifies this`messageChaining, this`chainRecords
      ensures Valid()
      ensures ChainState() == Decrease(old(ChainState()), hmiCorrelationId)
      ensures result == CompletedMobile(old(ChainState()), hmiCorrelationId).Some?
      ensures mobileCorrelationId == if result then CompletedMobile(old(ChainState()), hmiCorrelationId).value else prior
    {
      ghost var s0 := ChainState();
      var ps := ListEntries(messageChaining);
      EntriesInStore(s0, ps);
      result, mobileCorrelationId := ScanEntries(hmiCorrelationId, prior, ps, s0);
      assert ChainState() == Decrease(s0, hmiCorrelationId) && Valid() by {
        ScanComplete(s0, hmiCorrelationId, ps);
      }
      assert ReportedAlong(s0, hmiCorrelationId, ps) == CompletedMobile(s0, hmiCorrelationId) by {
        ScanComplete(s0, hmiCorrelationId, ps);
      }
    }

    /** The loop of DecreaseMessageChain over the entries `ps`, in order. */
    method ScanEntries(hmiCorrelationId: Uint32, prior: Uint32, ps: seq<(Uint32, Uint32)>, ghost s0: Store)
      returns (result: bool, mobileCorrelationId: Uint32)
      requires ChainStore.Valid(s0) && LexAscending(ps) && nextRecord == s0.nextRecord
      requires messageChaining == s0.chains && chainRecords == s0.records
      requires forall i :: 0 <= i < |ps| ==> ps[i].0 in s0.chains && ps[i].1 in s0.chains[ps[i].0]
      modifies this`messageChaining, this`chainRecords
      ensures messageChaining == ErasedOver(s0, hmiCorrelationId, Prefix(ps, |ps|))
      ensures chainRecords == RecordsOver(s0, hmiCorrelationId, Prefix(ps, |ps|))
      ensures ReportedAlong(s0, hmiCorrelationId, ps) == if result then Some(mobileCorrelationId as int) else None
      ensures !result ==> mobileCorrelationId == prior
    {
      result := false;
      mobileCorrelationId := prior;
      var i := 0;
      DecreaseOverNothing(s0, hmiCorrelationId);
      assert Prefix(ps, 0) == {};
      while i < |ps|
        invariant 0 <= i <= |ps|
        invariant messageChaining == ErasedOver(s0, hmiCorrelationId, Prefix(ps, i))
        invariant chainRecords == RecordsOver(s0, hmiCorrelationId, Prefix(ps, i))
        invariant ReportedAlong(s0, hmiCorrelationId, ps[..i]) == if result then Some(mobileCorrelationId as int) else None
        invariant !result ==> mobileCorrelationId == prior
      {
        var c, m := ps[i].0, ps[i].1;
        PrefixStep(ps, i);
        ReportedAlongSnoc(s0, hmiCorrelationId, ps, i + 1);
        var completedHere, mobileId := VisitEntry(hmiCorrelationId, c, m, s0, Prefix(ps, i));
        if completedHere {
          result := true;
          mobileCorrelationId := mobileId;
        }
        i := i + 1;
      }
      assert ps[..i] == ps;
    }

    /** Once the scan has visited every entry, the store is Decrease and the report is CompletedMobile. */
    static lemma ScanComplete(s: Store, hmi: int, ps: seq<(Uint32, Uint32)>)
      requires ChainStore.Valid(s) && LexAscending(ps)
      requires forall c, m :: (c, m) in ps <==> c in s.chains && m in s.chains[c]
      ensures Decrease(s, hmi) == Store(ErasedOver(s, hmi, Prefix(ps, |ps|)), RecordsOver(s, hmi, Prefix(ps, |ps|)), s.nextRecord)
      ensures ChainStore.Valid(Decrease(s, hmi))
      ensures ReportedAlong(s, hmi, ps) == CompletedMobile(s, hmi)
    {
      PrefixAll(s, ps);
      EntriesInStore(s, ps);
      assert ps[..|ps|] == ps;
      ReportedAlongIsOver(s, hmi, ps, |ps|);
      ReportedAll(s, hmi);
    }

    static lemma PrefixAll(s: Store, ps: seq<(Uint32, Uint32)>)
      requires forall c, m :: (c, m) in ps <==> c in s.chains && m in s.chains[c]
      ensures Prefix(ps, |ps|) == AllPairs(s)
    {
      assert ps[..|ps|] == ps;
      forall p: (int, int) ensures p in Prefix(ps, |ps|) <==> p in AllPairs(s) {
        if p in Prefix(ps, |ps|) {
          var k :| 0 <= k < |ps| && ps[k] == p;
          assert (ps[k].0, ps[k].1) in ps;
        }
        if p in AllPairs(s) {
          assert p.0 in s.chains && p.1 in s.chains[p.0];
          var c: Uint32, m: Uint32 := p.0, p.1;
          assert (c, m) in ps;
        }
      }
    }

    static lemma EntriesInStore(s: Store, ps: seq<(Uint32, Uint32)>)
      requires forall c, m :: (c, m) in ps <==> c in s.chains && m in s.chains[c]
      ensures forall i :: 0 <= i < |ps| ==> ps[i].0 in s.chains && ps[i].1 in s.chains[ps[i].0]
    {
      forall i | 0 <= i < |ps| ensures ps[i].0 in s.chains && ps[i].1 in s.chains[ps[i].0] {
        assert (ps[i].0, ps[i].1) in ps;
      }
    }

    /**
     * The body of the scan of DecreaseMessageChain at entry (c, m): the
     * store goes from the scan over `done` to the scan over `done` and (c, m).
     */
    method VisitEntry(hmiCorrelationId: Uint32, c: Uint32, m: Uint32, ghost s0: Store, ghost done: set<(int, int)>)
      returns (completed: bool, mobileCorrelationId: Uint32)
      requires ChainStore.Valid(s0) && c in s0.chains && m in s0.chains[c] && (c, m) !in done
      requires messageChaining == ErasedOver(s0, hmiCorrelationId, done)
      requires chainRecords == RecordsOver(s0, hmiCorrelationId, done)
      modifies this`messageChaining, this`chainRecords
      ensures messageChaining == ErasedOver(s0, hmiCorrelationId, done + {(c, m)})
      ensures chainRecords == RecordsOver(s0, hmiCorrelationId, done + {(c, m)})
      ensures completed == Completes(s0, hmiCorrelationId, c, m)
      ensures completed ==> mobileCorrelationId == s0.records[s0.chains[c][m][hmiCorrelationId]].correlationId
    {
      DecreaseOverStep(s0, hmiCorrelationId, done, c, m);
      completed := false;
      mobileCorrelationId := 0;
      if hmiCorrelationId in messageChaining[c][m] {
        var id := messageChaining[c][m][hmiCorrelationId];
        var rec := Decremented(chainRecords[id]);
        chainRecords := chainRecords[id := rec];
        if rec.counter == 0 {
          mobileCorrelationId := rec.correlationId;
          var mobRequest: MobileRequest := messageChaining[c] - {m};
          messageChaining := messageChaining[c := mobRequest];
          completed := true;
        }
      }
    }

    static lemma PrefixStep(ps: seq<(Uint32, Uint32)>, i: nat)
      requires i < |ps| && LexAscending(ps)
      ensures Prefix(ps, i + 1) == Prefix(ps, i) + {ps[i]} && ps[i] !in Prefix(ps, i)
    {
      assert ps[..i + 1] == ps[..i] + [ps[i]];
      forall p: (int, int) ensures p in Prefix(ps, i + 1) <==> p in Prefix(ps, i) || p == ps[i] {
        assert p in ps[..i + 1] <==> p in ps[..i] || p == ps[i];
      }
      forall k | 0 <= k < i ensures ps[..i][k] != ps[i] {
        assert ps[k] != ps[i];
      }
      assert ps[i] !in ps[..i];
      assert (ps[i].0 as int, ps[i].1 as int) !in Prefix(ps, i);
    }

    /** The scan along `ps` reports the same as the scan over the set of its entries. */
    static lemma {:induction false} ReportedAlongIsOver(s: Store, hmi: int, ps: seq<(Uint32, Uint32)>, k: nat)
      requires ChainStore.Valid(s) && k <= |ps| && LexAscending(ps)
      requires forall i :: 0 <= i < |ps| ==> ps[i].0 in s.chains && ps[i].1 in s.chains[ps[i].0]
      ensures ReportedAlong(s, hmi, ps[..k]) == ReportedOver(s, hmi, Prefix(ps, k))
    {
      if k == 0 {
        assert Prefix(ps, 0) == {};
        ReportedNothing(s, hmi);
      } else {
        ReportedAlongIsOver(s, hmi, ps, k - 1);
        ReportedAlongStep(s, hmi, ps, k);
      }
    }

    /** The inductive step of ReportedAlongIsOver. */
    static lemma ReportedAlongStep(s: Store, hmi: int, ps: seq<(Uint32, Uint32)>, k: nat)
      requires ChainStore.Valid(s) && 0 < k <= |ps| && LexAscending(ps)
      requires ps[k - 1].0 in s.chains && ps[k - 1].1 in s.chains[ps[k - 1].0]
      requires ReportedAlong(s, hmi, ps[..k - 1]) == ReportedOver(s, hmi, Prefix(ps, k - 1))
      ensures ReportedAlong(s, hmi, ps[..k]) == ReportedOver(s, hmi, Prefix(ps, k))
    {
      ReportedStep(s, hmi, ps, k - 1);
      ReportedAlongSnoc(s, hmi, ps, k);
    }

    /** The scan along the first `k` entries is the scan along the first k - 1 and then entry k - 1. */
    static lemma ReportedAlongSnoc(s: Store, hmi: int, ps: seq<(Uint32, Uint32)>, k: nat)
      requires 0 < k <= |ps|
      ensures ReportedAlong(s, hmi, ps[..k])
           == if Completes(s, hmi, ps[k - 1].0, ps[k - 1].1) then Some(s.records[s.chains[ps[k - 1].0][ps[k - 1].1][hmi]].correlationId)
              else ReportedAlong(s, hmi, ps[..k - 1])
    {
      assert ps[..k][..k - 1] == ps[..k - 1];
    }

    /**
     * Entries are visited in ascending order, so the entry visited last,
     * when it completes, is the last completing one so far.
     */
    static lemma ReportedStep(s: Store, hmi: int, ps: seq<(Uint32, Uint32)>, i: nat)
      requires ChainStore.Valid(s) && i < |ps| && LexAscending(ps) && ps[i].0 in s.chains && ps[i].1 in s.chains[ps[i].0]
      ensures ps[i] !in Prefix(ps, i)
      ensures ReportedOver(s, hmi, Prefix(ps, i + 1))
           == if Completes(s, hmi, ps[i].0, ps[i].1) then Some(s.records[s.chains[ps[i].0][ps[i].1][hmi]].correlationId)
              else ReportedOver(s, hmi, Prefix(ps, i))
    {
      PrefixStep(ps, i);
      CompletingStep(s, hmi, Prefix(ps, i), ps[i].0, ps[i].1);
      if Completes(s, hmi, ps[i].0, ps[i].1) {
        var cp := CompletingPairs(s, hmi, Prefix(ps, i + 1));
        forall q | q in cp ensures LexLe(q, ps[i]) {
          var k :| 0 <= k < i + 1 && ps[..i + 1][k] == q;
        }
        LexMaxIs(cp, ps[i]);
      }
    }

    method RemoveMobileRequestFromMessageChain(mobileCorrelationId: Uint32, connectionKey: Uint32) returns (result: bool)
      requires Valid()
      modifies this`messageChaining
      ensures Valid()
      ensures result == HasEntry(old(ChainState()), mobileCorrelationId, connectionKey)
      ensures ChainState() == RemoveEntry(old(ChainState()), mobileCorrelationId, connectionKey)
    {
      result := false;
      if connectionKey in messageChaining {
        if mobileCorrelationId in messageChaining[connectionKey] {
          messageChaining := messageChaining[connectionKey := messageChaining[connectionKey] - {mobileCorrelationId}];
          result := true;
        }
      }
    }

    method GetMessageChain(hmiCorrelationId: Uint32) returns (r: Option<Chain>)
      requires Valid()
      ensures r == Lookup(ChainState(), hmiCorrelationId)
    {
      var ps := ListEntries(messageChaining);
      var i := 0;
      while i < |ps|
        invariant 0 <= i <= |ps|
        invariant forall k :: 0 <= k < i ==> !Hit(ChainState(), hmiCorrelationId, ps[k].0, ps[k].1)
      {
        var c, m := ps[i].0, ps[i].1;
        assert (c, m) in ps;
        if hmiCorrelationId in messageChaining[c][m] {
          var hits := HitPairs(ChainState(), hmiCorrelationId);
          forall q | q in hits ensures LexLe((c, m), q) {
            assert (q.0, q.1) in ps;
          }
          LexMinIs(hits, (c, m));
          return Some(chainRecords[messageChaining[c][m][hmiCorrelationId]]);
        }
        i := i + 1;
      }
      forall c, m | c in messageChaining && m in messageChaining[c] ensures !Hit(ChainState(), hmiCorrelationId, c, m) {
        assert (c, m) in ps;
      }
      return None;
    }

    // ------------------------------------------------------------ audio pass thru

    method BeginAudioPassThru() returns (ok: bool)
      modifies this`audioPassThruActive
      ensures ok == !old(audioPassThruActive) && audioPassThruActive
    {
      if audioPassThruActive {
        ok := false;
      } else {
        audioPassThruActive := true;
        ok := true;
      }
    }

    method EndAudioPassThru() returns (ok: bool)
      modifies this`audioPassThruActive
      ensures ok == old(audioPassThruActive) && !audioPassThruActive
    {
      if audioPassThruActive {
        audioPassThruActive := false;
        ok := true;
      } else {
        ok := false;
      }
    }

    // ------------------------------------------------------------ correlation id -> application id

    /** std::map::insert: an existing entry is kept. */
    method SetApplicationId(correlationId: Int32, appId: Uint32)
      modifies this`appIdList
      ensures appIdList == if correlationId in old(appIdList) then old(appIdList) else old(appIdList)[correlationId := appId]
    {
      if correlationId !in appIdList {
        appIdList := appIdList[correlationId := appId];
      }
    }

    /** The stored application id, which is consumed; 0 when there is none. */
    method ApplicationId(correlationId: Int32) returns (appId: Uint32)
      modifies this`appIdList
      ensures appId == if correlationId in old(appIdList) then old(appIdList)[correlationId] else 0
      ensures appIdList == old(appIdList) - {correlationId}
    {
      if correlationId in appIdList {
        appId := appIdList[correlationId];
        appIdList := appIdList - {correlationId};
      } else {
        appId := 0;
      }
    }

    // ------------------------------------------------------------ applications

    /** application(app_id): the registered application, or NULL. */
    method ApplicationById(appId: int) returns (app: Application?)
      ensures app != null <==> appId in applications
      ensures app != null ==> app == applications[appId]
    {
      if appId in applications {
        app := applications[appId];
      } else {
        app := null;
      }
    }

    method UnregisterApplication(appId: int) returns (ok: bool)
      modifies this`applications, this`applicationList, this`terminatedAppRequests
      ensures ok == (appId in old(applications))
      ensures ok ==> && applications == old(applications) - {appId}
                     && applicationList == old(applicationList) - {old(applications)[appId]}
                     && terminatedAppRequests == old(terminatedAppRequests) + [appId]
      ensures !ok ==> && applications == old(applications) && applicationList == old(applicationList)
                      && terminatedAppRequests == old(terminatedAppRequests)
      ensures old(RegistryConsistent()) ==> RegistryConsistent()
    {
      if appId !in applications {
        return false;
      }
      var appToRemove := applications[appId];
      applications := applications - {appId};
      applicationList := applicationList - {appToRemove};
      terminatedAppRequests := terminatedAppRequests + [appId];
      ok := true;
    }

    // ------------------------------------------------------------ notifications

    method AddNotification(ptr: CommandId)
      modifies this`notificationList
      ensures notificationList == old(notificationList) + [ptr]
    {
      notificationList := notificationList + [ptr];
    }

    method RemoveNotification(ptr: CommandId)
      modifies this`notificationList
      ensures notificationList == RemoveFirst(old(notificationList), ptr)
    {
      var i := 0;
      while i < |notificationList| && notificationList[i] != ptr
        invariant 0 <= i <= |notificationList|
        invariant ptr !in notificationList[..i]
      {
        assert notificationList[..i + 1] == notificationList[..i] + [notificationList[i]];
        i := i + 1;
      }
      if i < |notificationList| {
        RemoveFirstAt(notificationList, ptr, i);
        notificationList := notificationList[..i] + notificationList[i + 1..];
      } else {
        assert notificationList[..i] == notificationList;
        RemoveFirstAbsent(notificationList, ptr);
      }
    }

    // ------------------------------------------------------------ HMI capabilities

    /**
     * Initialised when all five Ready responses have arrived and every
     * cooperating component has reported its capabilities: supported
     * languages and a valid active language for VR, TTS and UI, the vehicle
     * type for IVI.
     */
    method IsHMICapabilitiesInitialized() returns (result: bool)
      ensures result <==>
        && isVrReadyResponseReceived && isTtsReadyResponseReceived && isUiReadyResponseReceived
        && isNaviReadyResponseReceived && isIviReadyResponseReceived
        && (isVrCooperating ==> vrSupportedLanguages.Some? && vrLanguage != INVALID_ENUM)
        && (isTtsCooperating ==> ttsSupportedLanguages.Some? && ttsLanguage != INVALID_ENUM)
        && (isUiCooperating ==> uiSupportedLanguages.Some? && uiLanguage != INVALID_ENUM)
        && (isIviCooperating ==> vehicleType.Some?)
    {
      result := true;
      if isVrReadyResponseReceived && isTtsReadyResponseReceived && isUiReadyResponseReceived
         && isNaviReadyResponseReceived && isIviReadyResponseReceived {
        if isVrCooperating {
          if vrSupportedLanguages.None? || INVALID_ENUM == vrLanguage {
            result := false;
          }
        }
        if isTtsCooperating {
          if ttsSupportedLanguages.None? || INVALID_ENUM == ttsLanguage {
            result := false;
          }
        }
        if isUiCooperating {
          if uiSupportedLanguages.None? || INVALID_ENUM == uiLanguage {
            result := false;
          }
        }
        if isIviCooperating {
          if vehicleType.None? {
            result := false;
          }
        }
      } else {
        result := false;
      }
    }
  }
}
