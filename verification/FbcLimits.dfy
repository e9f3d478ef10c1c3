/**
 One small receiver: a run that stops in the middle of a simulation episode, and
 what goes wrong when real steps do not wait for its end, or a tuner is taken by
 its slot.
 */
module FbcLimits {
  import opened FbcChains
  import opened FbcStates
  import opened FbcEpisodes
  import opened Allocator

  /** One root in slot 0, two leaves of the same set in slots 1 and 2, one LNB. */
  const THREE_TUNERS := Config([0, 1, 2], map[0 := Tuner(Root, 0), 1 := Tuner(Leaf, 0), 2 := Tuner(Leaf, 0)], [NONE])

  /** Slot 0 is in use for real and simulated, and leaf 1 has been linked below it in an unfinished simulation. */
  const MID_EPISODE := State(
    map[0 := Fe(1, true, NONE, NONE), 1 := Fe(0, false, NONE, NONE), 2 := Fe(0, false, NONE, NONE)],
    map[0 := Fe(1, true, NONE, 1), 1 := Fe(1, true, 0, NONE), 2 := Fe(0, false, NONE, NONE)],
    [{0, 1}])

  /** The start: nothing is in use. */
  const START := State(
    map[0 := Fe(0, true, NONE, NONE), 1 := Fe(0, false, NONE, NONE), 2 := Fe(0, false, NONE, NONE)],
    map[0 := Fe(0, true, NONE, NONE), 1 := Fe(0, false, NONE, NONE), 2 := Fe(0, false, NONE, NONE)],
    [{0}])

  /** The root is in use. */
  const ROOT_TAKEN := START.(actual := START.actual[0 := Fe(1, true, NONE, NONE)])

  /** The root is in use, for real and simulated. */
  const ROOT_TAKEN_TWICE := ROOT_TAKEN.(sim := START.sim[0 := Fe(1, true, NONE, NONE)])

  /** The root is allocated for real, then in a simulation, and then leaf 1 in the simulation. */
  const STEPS := [AllocateStep(false, Wants(0)), AllocateStep(true, Wants(0)), AllocateStep(true, Wants(1))]
  const STATES := [START, ROOT_TAKEN, ROOT_TAKEN_TWICE, MID_EPISODE]

  lemma StartIsInitial()
    ensures Initial(THREE_TUNERS, START)
  {
    assert START.actual == List(START, false) && START.sim == List(START, true);
  }

  /** A wanted root that is not in use is taken as it is. */
  lemma RootIsTaken(s: State, simulate: bool)
    requires Inv(THREE_TUNERS, s) && Unused(s, simulate, 0)
    ensures Allocate(THREE_TUNERS, s, Wants(0), simulate) == Allocated(0, NONE)
  {
    var c, score := THREE_TUNERS, Wants(0);
    AllocationAgrees(c, s, score, simulate);
    OnlyWanted(c, s, simulate, 0, 0);
    OnlyWanted(c, s, simulate, 0, 1);
    OnlyWanted(c, s, simulate, 0, 2);
    assert OfferAt(c, s, score, simulate, 0).value == 1;
    OfferMeans(c, s, score, simulate, 0);
  }

  /** A wanted leaf is linked below the root that is in use. */
  lemma LeafIsTaken()
    requires Inv(THREE_TUNERS, ROOT_TAKEN_TWICE)
    ensures Allocate(THREE_TUNERS, ROOT_TAKEN_TWICE, Wants(1), true) == Allocated(1, 0)
  {
    var c, s, score := THREE_TUNERS, ROOT_TAKEN_TWICE, Wants(1);
    AllocationAgrees(c, s, score, true);
    OnlyWanted(c, s, true, 1, 0);
    OnlyWanted(c, s, true, 1, 1);
    OnlyWanted(c, s, true, 1, 2);
    assert LastSet(c, s, true, 1) == LastSet(c, s, true, 0) == NONE;
    assert !IsUnicable(c, s.lnb, 0);
    assert Qualifies(c, s, true, 1, c.slots[0]);
    assert OfferAt(c, s, score, true, 1).value == 1;
    OfferMeans(c, s, score, true, 1);
    BestRootIsFirstMaximum(c, s, score, true, 1);
  }

  lemma LinkingLeaf1()
    requires Inv(THREE_TUNERS, ROOT_TAKEN_TWICE) && CanTake(THREE_TUNERS, ROOT_TAKEN_TWICE, true, 1, 0)
    ensures Take(THREE_TUNERS, ROOT_TAKEN_TWICE, true, 1, 0) == MID_EPISODE
  {
    var s := ROOT_TAKEN_TWICE;
    assert InsertPoint(THREE_TUNERS, s.sim, 0, 1) == 0;
    assert s.lnb[0] == {0} && MaskAfter({0}, 1, 0, false) == {0, 1};
    assert UpdateMask(s.lnb, 1, 0, false) == [{0, 1}];
  }

  lemma FirstStep()
    ensures Legal(THREE_TUNERS, START, STEPS[0]) && Next(THREE_TUNERS, START, STEPS[0]) == ROOT_TAKEN
    ensures Inv(THREE_TUNERS, ROOT_TAKEN)
  {
    StartIsInitial();
    InitialIsInv(THREE_TUNERS, START);
    RootIsTaken(START, false);
    assert Next(THREE_TUNERS, START, STEPS[0]) == ROOT_TAKEN;
    NextKeepsInv(THREE_TUNERS, START, STEPS[0]);
  }

  lemma SecondStep()
    ensures Legal(THREE_TUNERS, ROOT_TAKEN, STEPS[1]) && Next(THREE_TUNERS, ROOT_TAKEN, STEPS[1]) == ROOT_TAKEN_TWICE
    ensures Inv(THREE_TUNERS, ROOT_TAKEN_TWICE)
  {
    FirstStep();
    RootIsTaken(ROOT_TAKEN, true);
    assert Next(THREE_TUNERS, ROOT_TAKEN, STEPS[1]) == ROOT_TAKEN_TWICE;
    NextKeepsInv(THREE_TUNERS, ROOT_TAKEN, STEPS[1]);
  }

  lemma ThirdStep()
    ensures Legal(THREE_TUNERS, ROOT_TAKEN_TWICE, STEPS[2])
      && Next(THREE_TUNERS, ROOT_TAKEN_TWICE, STEPS[2]) == MID_EPISODE
    ensures Inv(THREE_TUNERS, MID_EPISODE)
  {
    SecondStep();
    LeafIsTaken();
    ChoiceIsLegal(THREE_TUNERS, ROOT_TAKEN_TWICE, Wants(1), true);
    LinkingLeaf1();
    assert Next(THREE_TUNERS, ROOT_TAKEN_TWICE, STEPS[2]) == MID_EPISODE;
    NextKeepsInv(THREE_TUNERS, ROOT_TAKEN_TWICE, STEPS[2]);
  }

  /** The state in the middle of an episode is reached by a run from the start, and so has the invariant. */
  lemma MidEpisodeIsReached()
    ensures Initial(THREE_TUNERS, STATES[0]) && IsRun(THREE_TUNERS, STATES, STEPS) && STATES[3] == MID_EPISODE
    ensures Inv(THREE_TUNERS, MID_EPISODE) && !AtRest(MID_EPISODE)
  {
    hide Inv, Structure, Next, Legal;
    StartIsInitial();
    FirstStep();
    SecondStep();
    ThirdStep();
    assert MID_EPISODE.sim[1].inuse == 1;
  }

  /** There, allocating leaf 2 for real breaks the simulated chain. */
  lemma RealStepInsideEpisodeBreaksChain()
    ensures Inv(THREE_TUNERS, MID_EPISODE) && CanTake(THREE_TUNERS, MID_EPISODE, false, 2, 0)
    ensures !Inv(THREE_TUNERS, Take(THREE_TUNERS, MID_EPISODE, false, 2, 0))
  {
    MidEpisodeIsReached();
    var c, s := THREE_TUNERS, MID_EPISODE;
    assert !IsUnicable(c, s.lnb, 0);
    assert InsertPoint(c, s.actual, 0, 2) == 0;
    RealTakeInside(c, s, 2, 0);
  }

  /** And even asking for leaf 1 for real takes away the LNB bit that the simulation has given it. */
  lemma RealQueryInsideEpisodeBreaksMasks()
    ensures Inv(THREE_TUNERS, MID_EPISODE) && Qualifies(THREE_TUNERS, MID_EPISODE, false, 1, 0)
    ensures !Linked(MID_EPISODE.actual, 1) && !Bare(THREE_TUNERS, MID_EPISODE, false)
    ensures var t := Probe(THREE_TUNERS, MID_EPISODE, false, 1, 0);
      var u := Unprobe(t, false, 1, Last(THREE_TUNERS, MID_EPISODE.actual, 0), 0);
      u == MID_EPISODE.(lnb := [{0}]) && !Structure(THREE_TUNERS, u)
  {
    MidEpisodeIsReached();
    var c, s := THREE_TUNERS, MID_EPISODE;
    assert !IsUnicable(c, s.lnb, 0);
    RealProbeInside(c, s, 1, 0);
    assert s.lnb[0] == {0, 1} && MaskAfter({0, 1}, 1, 0, false) == {0, 1} && MaskAfter({0, 1}, 1, 0, true) == {0};
    assert UpdateMask(s.lnb, 1, 0, false) == [{0, 1}];
    assert UpdateMask([{0, 1}], 1, 0, true) == [{0}];
  }

  /**
   Leaf 1 is in use without being linked, which no run of allocations and releases reaches, but taking it by its slot
   does.
   */
  const BUSY_UNLINKED := State(
    map[0 := Fe(1, true, NONE, NONE), 1 := Fe(1, false, NONE, NONE), 2 := Fe(0, false, NONE, NONE)],
    map[0 := Fe(0, true, NONE, NONE), 1 := Fe(0, false, NONE, NONE), 2 := Fe(0, false, NONE, NONE)],
    [{0}])

  lemma BusyUnlinkedIsReachedByIndex()
    ensures Inv(THREE_TUNERS, ROOT_TAKEN)
    ensures AllocateByIndex(THREE_TUNERS, ROOT_TAKEN, 1) == Allocated(1, NONE)
    ensures UseOnly(ROOT_TAKEN, 1) == BUSY_UNLINKED
  {
    var c := THREE_TUNERS;
    FirstStep();
    assert c.slots[1] == 1;
    ByIndexKeepsInv(c, ROOT_TAKEN, 1);
  }

  /** Outside the invariant the two loops disagree: one reports a frontend, the other that all are busy. */
  lemma BusyUnlinkedLeafBreaksAgreement()
    ensures Structure(THREE_TUNERS, BUSY_UNLINKED)
    ensures var score := (t: State, b: bool, i: int) => 1;
            && CanAllocate(THREE_TUNERS, BUSY_UNLINKED, score, false) == 1
            && Allocate(THREE_TUNERS, BUSY_UNLINKED, score, false) == AllSourcesBusy
  {
    var c, s := THREE_TUNERS, BUSY_UNLINKED;
    var score: Score := (t: State, b: bool, i: int) => 1;
    assert ConfigOk(c);
    assert NodeOk(c, s.actual, 0) && NodeOk(c, s.actual, 1) && NodeOk(c, s.actual, 2);
    assert NodeOk(c, s.sim, 0) && NodeOk(c, s.sim, 1) && NodeOk(c, s.sim, 2);
    assert LeafOk(c, s, 1) && LeafOk(c, s, 2);
    assert Structure(c, s);
    assert !IsUnicable(c, s.lnb, 0);
    CanLinkExactly(c, s, false, 0);
    CanLinkExactly(c, s, false, 1);
    CanLinkExactly(c, s, false, 2);
    forall leaf | leaf == 1 || leaf == 2
      ensures BestRoot(c, s, score, false, leaf, 3) == Best(1, 0)
    {
      assert BestRoot(c, s, score, false, leaf, 0) == Best(0, NONE);
      assert BestRoot(c, s, score, false, leaf, 1) == Best(1, 0);
      assert BestRoot(c, s, score, false, leaf, 2) == Best(1, 0);
    }
    assert AllocateScan(c, s, score, false, 0) == Scan(0, NONE, NONE, false, false, NONE);
    assert AllocateScan(c, s, score, false, 1) == Scan(0, NONE, NONE, true, false, NONE);
    assert AllocateScan(c, s, score, false, 2) == Scan(0, NONE, NONE, true, true, 0);
    assert AllocateScan(c, s, score, false, 3) == Scan(0, NONE, NONE, true, true, 0);
    assert CanAllocateScan(c, s, score, false, 0) == Offer(0, NONE, false, NONE);
    assert CanAllocateScan(c, s, score, false, 1) == Offer(0, NONE, false, NONE);
    assert CanAllocateScan(c, s, score, false, 2) == Offer(0, NONE, false, NONE);
    assert CanAllocateScan(c, s, score, false, 3) == Offer(1, NONE, true, 0);
  }
}
