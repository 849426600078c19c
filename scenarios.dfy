/**
 * Sequences of calls on a fresh ApplicationManagerImpl, with the outcome
 * each one is proved to have.
 */
module Scenarios {
  import opened Common
  import opened MessageChaining
  import opened ChainStore
  import opened ApplicationManager

  /** The store-level facts of the fan-out below, from the empty store. */
  lemma FanOutOnEmptyStore(data: Option<Payload>)
    ensures var leg := NewChain(1, 100, 2, data);
            var s2 := AddReuse(AddNewLeg(EmptyStore, 1, 100, 1, 2, data), 1, 100, 2, leg);
            var s3 := Decrease(s2.0, 1);
            && s2.1 == Some(leg)
            && CompletedMobile(s2.0, 1) == None
            && CompletedMobile(s3, 2) == Some(100)
            && Lookup(Decrease(s3, 2), 1) == None
            && Lookup(Decrease(s3, 2), 2) == None
  {
    TwoLegFanOut(EmptyStore, 1, 100, 1, 2, data);
    TwoLegFanOutCompletes(EmptyStore, 1, 100, 1, 2, data);
  }

  /**
   * A mobile request (connection 1, correlation id 100) fanned out to the
   * two HMI requests numbered by GetNextHMICorrelationID, with initial
   * counter 2: the first response completes nothing, the second reports
   * request 100, and afterwards neither HMI id has a chain.
   */
  method FanOutToTwoHmiRequests(data: Option<Payload>)
    returns (h1: Uint32, h2: Uint32, firstDone: bool, secondDone: bool, mobile: Uint32,
             left1: Option<Chain>, left2: Option<Chain>)
    ensures h1 == 1 && h2 == 2
    ensures !firstDone && secondDone && mobile == 100
    ensures left1.None? && left2.None?
  {
    var mgr := new ApplicationManagerImpl(2, false);
    ghost var s0 := mgr.ChainState();
    h1 := mgr.GetNextHMICorrelationID();
    h2 := mgr.GetNextHMICorrelationID();
    ghost var leg := NewChain(1, 100, 2, data);
    ghost var s1 := AddNewLeg(EmptyStore, 1, 100, 1, 2, data);
    ghost var s2 := AddReuse(s1, 1, 100, 2, leg);
    ghost var s3 := Decrease(s2.0, 1);
    assert mgr.ChainState() == s0;
    var first := mgr.AddMessageChain(1, 100, h1, None, data);
    assert mgr.ChainState() == s1;
    assert first == Some(leg);
    var shared := mgr.AddMessageChain(1, 100, h2, first, data);
    assert mgr.ChainState() == s2.0;
    var unused: Uint32;
    firstDone, unused := mgr.DecreaseMessageChain(h1, 0);
    assert mgr.ChainState() == s3;
    secondDone, mobile := mgr.DecreaseMessageChain(h2, 0);
    assert mgr.ChainState() == Decrease(s3, 2);
    left1 := mgr.GetMessageChain(h1);
    left2 := mgr.GetMessageChain(h2);
    FanOutOnEmptyStore(data);
  }

  /** An application id stored for a correlation id is handed out once; then 0. */
  method AppIdConsumedOnce() returns (first: Uint32, second: Uint32)
    ensures first == 7 && second == 0
  {
    var mgr := new ApplicationManagerImpl(1, false);
    mgr.SetApplicationId(42, 7);
    mgr.SetApplicationId(42, 9);
    first := mgr.ApplicationId(42);
    second := mgr.ApplicationId(42);
  }

  /** One audio pass-thru at a time: a second begin is refused until the first ends. */
  method AudioPassThruOnce() returns (b1: bool, b2: bool, e1: bool, e2: bool, b3: bool)
    ensures b1 && !b2 && e1 && !e2 && b3
  {
    var mgr := new ApplicationManagerImpl(1, false);
    b1 := mgr.BeginAudioPassThru();
    b2 := mgr.BeginAudioPassThru();
    e1 := mgr.EndAudioPassThru();
    e2 := mgr.EndAudioPassThru();
    b3 := mgr.BeginAudioPassThru();
  }
}
