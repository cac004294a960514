/** All conversations of the platform together: direct conversations are unique. */
module DirectConversations {
  import opened Ledger
  import opened Membership
  import Sync = SyncProtocol
  import opened Conversations

  type ConversationId = nat

  /** Where one createConversation is suspended. */
  datatype Creation =
    | Seeking(founder: Account, other: Account, mine: set<ConversationId>)     // the founder's memberships were read
    | Sought(kind: Kind, founder: Account, others: set<Account>)               // there is nothing to return
    | Stored(kind: Kind, founder: Account, others: set<Account>, id: ConversationId)   // the conversation row is saved

  datatype Platform = Platform(conversations: map<ConversationId, Conversation>, creations: map<CallId, Creation>)

  datatype PlatformStep =
    | BeginDirect(call: CallId, founder: Account, other: Account)
    | FindNone(call: CallId)
    | BeginGroup(call: CallId, founder: Account, others: set<Account>)
    | SaveConversation(call: CallId, id: ConversationId, keys: Keys, payer: Account)
    | SaveMembers(call: CallId, now: nat)
    | AbandonCreation(call: CallId)          // one is found, or any awaited call throws
    | Within(id: ConversationId, step: Step)

  /** The direct conversations in which both accounts are active. */
  ghost function DirectBetween(p: Platform, a: Account, b: Account): set<ConversationId> {
    set id | id in p.conversations && IsDirectBetween(p.conversations[id].room, a, b)
  }

  ghost predicate DirectsUnique(p: Platform) {
    forall a, b, i, j :: a != b && i in DirectBetween(p, a, b) && j in DirectBetween(p, a, b) ==> i == j
  }

  function MembershipsOf(p: Platform, a: Account): set<ConversationId> {
    set id | id in p.conversations && a in Active(p.conversations[id].room.members)
  }

  ghost predicate StepEnabled(p: Platform, step: PlatformStep) {
    match step
    case BeginDirect(call, a, b) => call !in p.creations && a != b
    case FindNone(call) =>
      && call in p.creations && p.creations[call].Seeking?
      && forall id :: id in p.creations[call].mine && id in p.conversations ==>
           || p.conversations[id].room.kind != Direct
           || p.creations[call].other !in Active(p.conversations[id].room.members)
    case BeginGroup(call, _, _) => call !in p.creations
    case SaveConversation(call, id, _, _) => call in p.creations && p.creations[call].Sought? && id !in p.conversations
    case SaveMembers(call, _) =>
      call in p.creations && p.creations[call].Stored? && p.creations[call].id in p.conversations
    case AbandonCreation(call) => call in p.creations
    case Within(id, s) => id in p.conversations && Enabled(p.conversations[id], s)
  }

  /** The membership rows of a conversation that had none. */
  ghost function Peopled(c: Conversation, founder: Account, others: set<Account>, now: nat): Conversation {
    c.(room := c.room.(members := Founding(founder, others, now)), stale := false)
  }

  ghost function StepPlatform(p: Platform, step: PlatformStep): Platform
    requires StepEnabled(p, step)
  {
    match step
    case BeginDirect(call, a, b) => p.(creations := p.creations[call := Seeking(a, b, MembershipsOf(p, a))])
    case FindNone(call) =>
      var creation := p.creations[call];
      p.(creations := p.creations[call := Sought(Direct, creation.founder, {creation.other})])
    case BeginGroup(call, a, others) => p.(creations := p.creations[call := Sought(Group, a, others)])
    case SaveConversation(call, id, keys, payer) =>
      var Sought(kind, a, others) := p.creations[call];
      Platform(p.conversations[id := Created(kind, a, others, keys, payer, 0, false)],
               p.creations[call := Stored(kind, a, others, id)])
    case SaveMembers(call, now) =>
      var Stored(_, a, others, id) := p.creations[call];
      Platform(p.conversations[id := Peopled(p.conversations[id], a, others, now)], p.creations - {call})
    case AbandonCreation(call) => p.(creations := p.creations - {call})
    case Within(id, s) => p.(conversations := p.conversations[id := Next(p.conversations[id], s)])
  }

  ghost predicate PlatformTrace(states: seq<Platform>, steps: seq<PlatformStep>) {
    && |states| == |steps| + 1
    && forall i :: 0 <= i < |steps| ==>
        StepEnabled(states[i], steps[i]) && states[i + 1] == StepPlatform(states[i], steps[i])
  }

  const EMPTY_PLATFORM := Platform(map[], map[])

  // ---------------------------------------------------------------------------
  // A direct conversation never gains anyone
  // ---------------------------------------------------------------------------

  /** Nobody is being added. */
  ghost predicate NoAdds(c: Conversation) {
    forall call :: call in c.calls ==> !c.calls[call].Admitted? && !c.calls[call].Joining?
  }

  /** A conversation whose membership rows are still to be saved. */
  ghost predicate Unpeopled(c: Conversation) {
    c.room.members == map[] && forall call :: call in c.calls ==> !Changes(c.calls[call])
  }

  lemma DirectsOnlyShrink(c: Conversation, step: Step)
    requires Enabled(c, step) && c.room.kind == Direct && NoAdds(c)
    ensures NoAdds(Next(c, step))
    ensures Active(Next(c, step).room.members) <= Active(c.room.members)
  {
    hide ActiveAdmins, NewcomerError, ChosenHeir, Saved, Promoted, Departed, Sync.Next, Sync.Enabled, MarkedRead,
         Active;
    match step
    case SaveHeir(call) => PromotionKeepsActive(c.room.members, c.calls[call].heir);
    case MarkLeft(call) => DepartureRemovesOne(c.room.members, c.calls[call].leaver);
    case SaveRead(call) => MarkingKeepsActive(c.room.members, c.calls[call].reader, c.calls[call].upTo);
    case _ =>
  }

  lemma UnpeopledStays(c: Conversation, step: Step)
    requires Enabled(c, step) && Unpeopled(c)
    ensures Unpeopled(Next(c, step))
  {
    hide NewcomerError, ChosenHeir, Saved, Promoted, Departed, Sync.Next, Sync.Enabled;
  }

  lemma KindStays(c: Conversation, step: Step)
    requires Enabled(c, step)
    ensures Next(c, step).room.kind == c.room.kind
  {
    hide CheckAdmin, NewcomerError, ChosenHeir, Saved, Promoted, Departed, Sync.Next, Sync.Enabled, MarkedRead, Active;
  }

  ghost predicate CreationSound(p: Platform, creation: Creation) {
    match creation
    case Seeking(a, b, _) => a != b
    case Sought(kind, a, others) => kind == Direct ==> exists b :: b != a && others == {b}
    case Stored(kind, a, others, id) =>
      && (kind == Direct ==> exists b :: b != a && others == {b})
      && id in p.conversations && p.conversations[id].room.kind == kind && Unpeopled(p.conversations[id])
  }

  ghost predicate PlatformSound(p: Platform) {
    && (forall id :: id in p.conversations && p.conversations[id].room.kind == Direct ==> NoAdds(p.conversations[id]))
    && (forall call :: call in p.creations ==> CreationSound(p, p.creations[call]))
    && (forall k, l :: k in p.creations && l in p.creations && p.creations[k].Stored? && p.creations[l].Stored? ==>
         (p.creations[k].id == p.creations[l].id ==> k == l))
  }

  /** Seen from one conversation, a platform step is a step of that conversation, the save
      of its rows, or nothing. */
  lemma PlatformStepProjects(p: Platform, step: PlatformStep, id: ConversationId)
    requires StepEnabled(p, step) && id in p.conversations
    ensures id in StepPlatform(p, step).conversations
    ensures var c, c' := p.conversations[id], StepPlatform(p, step).conversations[id];
            match step
            case Within(own, s) => c' == if own == id then Next(c, s) else c
            case SaveMembers(call, now) =>
              if p.creations[call].id != id then c' == c
              else
                && c'.topic == c.topic && c'.calls == c.calls && c'.room.kind == c.room.kind
                    && c'.room.keys == c.room.keys
                && Active(c'.room.members) == {p.creations[call].founder} + p.creations[call].others
                && ActiveAdmins(c'.room.members) == {p.creations[call].founder}
            case _ => c' == c
  {
    hide Enabled, Next;
    if step.SaveMembers? {
      FoundingIs(p.creations[step.call].founder, p.creations[step.call].others, step.now);
    }
  }

  lemma CreationStaysSound(p: Platform, step: PlatformStep, call: CallId)
    requires PlatformSound(p) && StepEnabled(p, step) && call in StepPlatform(p, step).creations
    ensures CreationSound(StepPlatform(p, step), StepPlatform(p, step).creations[call])
  {
    hide NoAdds, Next, Enabled, Founding;
    assert call in p.creations ==> CreationSound(p, p.creations[call]);
    match step
    case Within(id, s) =>
      KindStays(p.conversations[id], s);
      if Unpeopled(p.conversations[id]) {
        UnpeopledStays(p.conversations[id], s);
      }
      hide Unpeopled;
    case FindNone(k) =>
      assert CreationSound(p, p.creations[k]);
      hide Unpeopled;
    case SaveConversation(k, _, _, _) =>
      assert CreationSound(p, p.creations[k]);
    case _ =>
      hide Unpeopled;
  }

  lemma StepKeepsPlatformSound(p: Platform, step: PlatformStep)
    requires PlatformSound(p) && StepEnabled(p, step)
    ensures PlatformSound(StepPlatform(p, step))
  {
    var p' := StepPlatform(p, step);
    forall call | call in p'.creations ensures CreationSound(p', p'.creations[call]) {
      CreationStaysSound(p, step, call);
    }
    if step.Within? {
      KindStays(p.conversations[step.id], step.step);
      if p.conversations[step.id].room.kind == Direct {
        DirectsOnlyShrink(p.conversations[step.id], step.step);
      }
    }
    assert step.SaveMembers? ==> CreationSound(p, p.creations[step.call]);
    hide Next, Enabled, Founding;
  }

  // ---------------------------------------------------------------------------
  // At most one direct conversation between two accounts
  // ---------------------------------------------------------------------------

  /** Where the rows of a direct conversation are saved, its two accounts share none. */
  ghost predicate StillNone(p: Platform, step: PlatformStep)
    requires StepEnabled(p, step)
  {
    step.SaveMembers? && p.creations[step.call].kind == Direct ==>
      forall b :: b in p.creations[step.call].others ==> DirectBetween(p, p.creations[step.call].founder, b) == {}
  }

  /** Any other step gives no two accounts a direct conversation that they did not share. */
  lemma OnlySavesPair(p: Platform, step: PlatformStep, a: Account, b: Account)
    requires PlatformSound(p) && StepEnabled(p, step)
    requires step.SaveMembers? && p.creations[step.call].kind == Direct ==>
               !({a, b} <= {p.creations[step.call].founder} + p.creations[step.call].others)
    ensures DirectBetween(StepPlatform(p, step), a, b) <= DirectBetween(p, a, b)
  {
    if step.Within? {
      KindStays(p.conversations[step.id], step.step);
      if p.conversations[step.id].room.kind == Direct {
        DirectsOnlyShrink(p.conversations[step.id], step.step);
      }
    } else if step.SaveMembers? {
      assert CreationSound(p, p.creations[step.call]);
    }
    hide Next, Enabled;
  }

  /** The save gives the two accounts the conversation. */
  lemma SavePairs(p: Platform, call: CallId, now: nat, b: Account)
    requires PlatformSound(p) && StepEnabled(p, SaveMembers(call, now))
    requires p.creations[call].kind == Direct && p.creations[call].others == {b}
    ensures DirectBetween(StepPlatform(p, SaveMembers(call, now)), p.creations[call].founder, b)
            == DirectBetween(p, p.creations[call].founder, b) + {p.creations[call].id}
    ensures p.creations[call].id !in DirectBetween(p, p.creations[call].founder, b)
  {
    assert CreationSound(p, p.creations[call]);
    var id := p.creations[call].id;
    var members := Founding(p.creations[call].founder, {b}, now);
    assert Active(members) == {p.creations[call].founder, b};
    hide NoAdds, Founding;
  }

  /** With the searches, the save of the conversation and that of its members steps of
      their own, a step keeps direct conversations unique exactly when the members are
      saved while their accounts share none. */
  lemma StepKeepsDirectsUniqueIff(p: Platform, step: PlatformStep)
    requires PlatformSound(p) && DirectsUnique(p) && StepEnabled(p, step)
    ensures DirectsUnique(StepPlatform(p, step)) <==> StillNone(p, step)
  {
    var p' := StepPlatform(p, step);
    assert step.SaveMembers? ==> CreationSound(p, p.creations[step.call]);
    hide PlatformSound, StepPlatform, IsDirectBetween;
    if step.SaveMembers? && p.creations[step.call].kind == Direct {
      var a, id := p.creations[step.call].founder, p.creations[step.call].id;
      var b :| b != a && p.creations[step.call].others == {b};
      SavePairs(p, step.call, step.now, b);
      BetweenDependsOnConversations(p, p, a, b);
      BetweenDependsOnConversations(p', p', a, b);
      forall x, y | {x, y} != {a, b} && x != y ensures DirectBetween(p', x, y) <= DirectBetween(p, x, y) {
        OnlySavesPair(p, step, x, y);
      }
      hide DirectBetween;
      if DirectBetween(p, a, b) == {} {
        assert DirectsUnique(p');
      } else {
        var j :| j in DirectBetween(p, a, b);
        assert j in DirectBetween(p', a, b) && id in DirectBetween(p', a, b);
      }
    } else {
      forall a, b ensures DirectBetween(p', a, b) <= DirectBetween(p, a, b) {
        OnlySavesPair(p, step, a, b);
      }
    }
  }

  lemma BetweenDependsOnConversations(p: Platform, p': Platform, a: Account, b: Account)
    requires p.conversations == p'.conversations
    ensures DirectBetween(p, a, b) == DirectBetween(p', b, a)
  {
  }

  lemma {:induction false} PlatformRunsAreSound(states: seq<Platform>, steps: seq<PlatformStep>, i: nat)
    requires PlatformTrace(states, steps) && i < |states| && PlatformSound(states[0])
    ensures PlatformSound(states[i])
  {
    hide PlatformSound, StepEnabled, StepPlatform;
    if i > 0 {
      PlatformRunsAreSound(states, steps, i - 1);
      StepKeepsPlatformSound(states[i - 1], steps[i - 1]);
    }
  }

  /** On every interleaving, with failure possible at every call: two accounts share at
      most one direct conversation throughout exactly when each save of members finds
      that its accounts share none. */
  lemma RunsKeepDirectsUniqueIff(states: seq<Platform>, steps: seq<PlatformStep>)
    requires PlatformTrace(states, steps) && PlatformSound(states[0]) && DirectsUnique(states[0])
    ensures (forall i :: 0 <= i < |states| ==> DirectsUnique(states[i])) <==>
            (forall k :: 0 <= k < |steps| ==> StillNone(states[k], steps[k]))
  {
    hide PlatformSound, StepEnabled, StepPlatform, DirectsUnique, StillNone;
    forall k | 0 <= k < |steps| && DirectsUnique(states[k])
      ensures DirectsUnique(states[k + 1]) <==> StillNone(states[k], steps[k])
    {
      PlatformRunsAreSound(states, steps, k);
      StepKeepsDirectsUniqueIff(states[k], steps[k]);
    }
    var i := 0;
    while i < |steps| && StillNone(states[i], steps[i])
      invariant i <= |steps| && forall j :: 0 <= j <= i ==> DirectsUnique(states[j])
      invariant forall j :: 0 <= j < i ==> StillNone(states[j], steps[j])
    {
      i := i + 1;
    }
    assert i < |steps| ==> !DirectsUnique(states[i + 1]);
  }

  // ---------------------------------------------------------------------------
  // One creation for the same two at a time
  // ---------------------------------------------------------------------------

  /** The two accounts that a creation under way is for; none for a group. */
  function Pair(creation: Creation): set<Account> {
    match creation
    case Seeking(a, b, _) => {a, b}
    case Sought(kind, a, others) => if kind == Direct then {a} + others else {}
    case Stored(kind, a, others, _) => if kind == Direct then {a} + others else {}
  }

  /** A direct conversation is asked for only while no creation for the same two is under way. */
  ghost predicate OnceAtATime(p: Platform, step: PlatformStep) {
    step.BeginDirect? ==> forall call :: call in p.creations ==> Pair(p.creations[call]) != {step.founder, step.other}
  }

  /** What a search of a creation under way has found is still so. */
  ghost predicate StillFound(p: Platform, creation: Creation) {
    match creation
    case Seeking(a, b, mine) => DirectBetween(p, a, b) <= mine
    case Sought(kind, a, others) => kind == Direct ==> forall b :: b in others ==> DirectBetween(p, a, b) == {}
    case Stored(kind, a, others, _) => kind == Direct ==> forall b :: b in others ==> DirectBetween(p, a, b) == {}
  }

  ghost predicate OnePerPair(p: Platform) {
    && (forall k, l :: k in p.creations && l in p.creations && Pair(p.creations[k]) == Pair(p.creations[l]) != {} ==>
        k == l)
    && (forall k :: k in p.creations ==> StillFound(p, p.creations[k]))
  }

  lemma FoundStays(p: Platform, p': Platform, creation: Creation)
    requires StillFound(p, creation)
    requires forall a, b :: {a, b} <= Pair(creation) && a != b ==> DirectBetween(p', a, b) <= DirectBetween(p, a, b)
    requires CreationSound(p, creation)
    ensures StillFound(p', creation)
  {
    hide DirectBetween, Unpeopled;
  }

  lemma OtherCreationsStayFound(p: Platform, step: PlatformStep, k: CallId)
    requires PlatformSound(p) && OnePerPair(p) && StepEnabled(p, step)
    requires k in p.creations && (step.SaveMembers? ==> k != step.call)
    ensures StillFound(StepPlatform(p, step), p.creations[k])
  {
    var p' := StepPlatform(p, step);
    assert CreationSound(p, p.creations[k]);
    assert step.SaveMembers? ==> CreationSound(p, p.creations[step.call]);
    forall a, b | {a, b} <= Pair(p.creations[k]) && a != b ensures DirectBetween(p', a, b) <= DirectBetween(p, a, b) {
      if step.SaveMembers? && p.creations[step.call].kind == Direct {
        assert Pair(p.creations[k]) == {a, b};
        assert Pair(p.creations[step.call]) != {a, b};
      }
      OnlySavesPair(p, step, a, b);
    }
    hide PlatformSound, StepPlatform, DirectBetween;
    FoundStays(p, p', p.creations[k]);
  }

  lemma StepKeepsOnePerPair(p: Platform, step: PlatformStep)
    requires PlatformSound(p) && OnePerPair(p) && StepEnabled(p, step) && OnceAtATime(p, step)
    ensures OnePerPair(StepPlatform(p, step))
  {
    var p' := StepPlatform(p, step);
    forall k | k in p'.creations ensures StillFound(p', p'.creations[k]) {
      if k in p.creations && p.creations[k] == p'.creations[k] {
        OtherCreationsStayFound(p, step, k);
      } else if k in p.creations {
        OtherCreationsStayFound(p, step, k);
        assert CreationSound(p, p.creations[k]);
      }
    }
    hide PlatformSound, Next, Enabled, DirectBetween, StillFound, StepPlatform, StepEnabled, CreationSound;
    forall k, l | k in p'.creations && l in p'.creations && Pair(p'.creations[k]) == Pair(p'.creations[l]) != {}
      ensures k == l
    {
      PairStays(p, step, k);
      PairStays(p, step, l);
    }
  }

  /** A creation under way keeps its two accounts, and a new one for the same two is not
      begun. */
  lemma PairStays(p: Platform, step: PlatformStep, k: CallId)
    requires StepEnabled(p, step) && k in StepPlatform(p, step).creations
    ensures var pair := Pair(StepPlatform(p, step).creations[k]);
            || pair == {}
            || (k in p.creations && pair == Pair(p.creations[k]))
            || (k !in p.creations && step.BeginDirect? && step.call == k && pair == {step.founder, step.other})
  {
    hide Next, Enabled, DirectBetween, Created, Peopled;
  }

  lemma {:induction false} OnceAtATimeKeepsOnePerPair(states: seq<Platform>, steps: seq<PlatformStep>, i: nat)
    requires PlatformTrace(states, steps) && i < |states| && PlatformSound(states[0]) && OnePerPair(states[0])
    requires forall k :: 0 <= k < |steps| ==> OnceAtATime(states[k], steps[k])
    ensures OnePerPair(states[i])
  {
    hide PlatformSound, StepEnabled, StepPlatform, OnePerPair, OnceAtATime;
    if i > 0 {
      OnceAtATimeKeepsOnePerPair(states, steps, i - 1);
      PlatformRunsAreSound(states, steps, i - 1);
      StepKeepsOnePerPair(states[i - 1], steps[i - 1]);
    }
  }

  /** On every run on which no two creations for the same two accounts overlap, with
      anything else interleaved and failure possible inside every operation, two accounts
      share at most one direct conversation. */
  lemma DirectsAreUnique(states: seq<Platform>, steps: seq<PlatformStep>, i: nat)
    requires PlatformTrace(states, steps) && i < |states| && states[0] == EMPTY_PLATFORM
    requires forall k :: 0 <= k < |steps| ==> OnceAtATime(states[k], steps[k])
    ensures DirectsUnique(states[i])
  {
    forall k | 0 <= k < |steps| ensures StillNone(states[k], steps[k]) {
      OnceAtATimeKeepsOnePerPair(states, steps, k);
      assert steps[k].SaveMembers? ==> StillFound(states[k], states[k].creations[steps[k].call]);
    }
    RunsKeepDirectsUniqueIff(states, steps);
  }

  // ---------------------------------------------------------------------------
  // A whole creation
  // ---------------------------------------------------------------------------

  /** createConversation for a direct conversation, with nothing in between: an existing
      one is returned as it is; only otherwise are a topic, a conversation and its rows made. */
  ghost function Opened(p: Platform, a: Account, b: Account, id: ConversationId, keys: Keys, payer: Account, now: nat,
                        membersSaved: bool): (result: (Platform, ConversationId))
  {
    if DirectBetween(p, a, b) != {} then
      var existing :| existing in DirectBetween(p, a, b);
      (p, existing)
    else
      (p.(conversations := p.conversations[id := Created(Direct, a, {b}, keys, payer, now, membersSaved)]), id)
  }

  ghost predicate Moved(p: Platform, step: PlatformStep, next: Platform) {
    StepEnabled(p, step) && StepPlatform(p, step) == next
  }

  lemma MovesMakeAPlatformTrace(states: seq<Platform>, steps: seq<PlatformStep>)
    requires |states| == |steps| + 1 && forall i :: 0 <= i < |steps| ==> Moved(states[i], steps[i], states[i + 1])
    ensures PlatformTrace(states, steps)
  {
    hide StepEnabled, StepPlatform;
    forall i | 0 <= i < |steps|
      ensures StepEnabled(states[i], steps[i]) && states[i + 1] == StepPlatform(states[i], steps[i])
    {
      assert Moved(states[i], steps[i], states[i + 1]);
    }
  }

  function At(p: Platform, call: CallId, creation: Creation): Platform {
    p.(creations := p.creations[call := creation])
  }

  /** A search by two accounts who share nothing. */
  lemma SearchFindsNone(p: Platform, call: CallId, a: Account, b: Account)
    requires a != b && call !in p.creations && DirectBetween(p, a, b) == {}
    ensures Moved(p, BeginDirect(call, a, b), At(p, call, Seeking(a, b, MembershipsOf(p, a))))
    ensures Moved(At(p, call, Seeking(a, b, MembershipsOf(p, a))), FindNone(call), At(p, call, Sought(Direct, a, {b})))
  {
    var p1 := At(p, call, Seeking(a, b, MembershipsOf(p, a)));
    assert StepEnabled(p1, FindNone(call)) by {
      assert forall i :: i in p.conversations && IsDirectBetween(p.conversations[i].room, a, b) ==>
        i in DirectBetween(p, a, b);
    }
    assert At(p1, call, Sought(Direct, a, {b})) == At(p, call, Sought(Direct, a, {b}));
  }

  /** The two saves, or the first of them alone. */
  lemma SavesMake(p: Platform, call: CallId, kind: Kind, a: Account, others: set<Account>, id: ConversationId,
                  keys: Keys,
                  payer: Account, now: nat)
    requires call in p.creations && p.creations[call] == Sought(kind, a, others) && id !in p.conversations
    ensures var conversation := Created(kind, a, others, keys, payer, now, false);
            var saved := At(p.(conversations := p.conversations[id := conversation]), call,
                Stored(kind, a, others, id));
            var made := p.conversations[id := Created(kind, a, others, keys, payer, now, true)];
            && Moved(p, SaveConversation(call, id, keys, payer), saved)
            && Moved(saved, SaveMembers(call, now), Platform(made, p.creations - {call}))
            && Moved(saved, AbandonCreation(call), Platform(saved.conversations, p.creations - {call}))
  {
    var conversation := Created(kind, a, others, keys, payer, now, false);
    assert Created(kind, a, others, keys, payer, 0, false) == conversation;
    assert Peopled(conversation, a, others, now) == Created(kind, a, others, keys, payer, now, true);
    hide Created, Peopled;
    var saved := At(p.(conversations := p.conversations[id := conversation]), call, Stored(kind, a, others, id));
    assert saved.creations - {call} == p.creations - {call};
    assert saved.conversations[id := Peopled(conversation, a, others, now)]
        == p.conversations[id := Peopled(conversation, a, others, now)];
  }

  /** It is a run of its steps. */
  lemma OpeningIsARun(p: Platform, call: CallId, a: Account, b: Account, id: ConversationId, keys: Keys, payer: Account,
                      now: nat, membersSaved: bool)
    returns (states: seq<Platform>, steps: seq<PlatformStep>)
    requires a != b && call !in p.creations && id !in p.conversations && DirectBetween(p, a, b) == {}
    ensures PlatformTrace(states, steps) && states[0] == p
    ensures states[|steps|] == Opened(p, a, b, id, keys, payer, now, membersSaved).0
  {
    var last := if membersSaved then SaveMembers(call, now) else AbandonCreation(call);
    SearchFindsNone(p, call, a, b);
    var p2 := At(p, call, Sought(Direct, a, {b}));
    SavesMake(p2, call, Direct, a, {b}, id, keys, payer, now);
    assert p2.creations - {call} == p.creations;
    hide DirectBetween, Moved, Created;
    steps := [BeginDirect(call, a, b), FindNone(call), SaveConversation(call, id, keys, payer), last];
    var p3 := At(p2.(conversations := p2.conversations[id := Created(Direct, a, {b}, keys, payer, now, false)]),
                 call, Stored(Direct, a, {b}, id));
    states := [p, At(p, call, Seeking(a, b, MembershipsOf(p, a))), p2, p3,
        Opened(p, a, b, id, keys, payer, now, membersSaved).0];
    MovesMakeAPlatformTrace(states, steps);
  }

  /** So is the creation of a group, which looks for nothing. */
  lemma GroupIsARun(p: Platform, call: CallId, a: Account, others: set<Account>, id: ConversationId, keys: Keys,
                    payer: Account, now: nat, membersSaved: bool)
    returns (states: seq<Platform>, steps: seq<PlatformStep>)
    requires call !in p.creations && id !in p.conversations
    ensures PlatformTrace(states, steps) && states[0] == p
    ensures states[|steps|] ==
            p.(conversations := p.conversations[id := Created(Group, a, others, keys, payer, now, membersSaved)])
  {
    var last := if membersSaved then SaveMembers(call, now) else AbandonCreation(call);
    var p1 := At(p, call, Sought(Group, a, others));
    assert Moved(p, BeginGroup(call, a, others), p1);
    SavesMake(p1, call, Group, a, others, id, keys, payer, now);
    assert p1.creations - {call} == p.creations;
    hide Moved, Created;
    steps := [BeginGroup(call, a, others), SaveConversation(call, id, keys, payer), last];
    var conversation := Created(Group, a, others, keys, payer, now, false);
    var p2 := At(p1.(conversations := p1.conversations[id := conversation]), call, Stored(Group, a, others, id));
    states := [p, p1, p2,
               p.(conversations := p.conversations[id := Created(Group, a, others, keys, payer, now, membersSaved)])];
    MovesMakeAPlatformTrace(states, steps);
  }

  /** Opening it again, from either side, gives back the same conversation and leaves
      everything, ledger included, as it was. */
  lemma ReopeningReturnsTheSame(p: Platform, a: Account, b: Account, id: ConversationId, keys: Keys, payer: Account,
                                now: nat, id': ConversationId, keys': Keys, payer': Account, now': nat, saved': bool)
    requires DirectsUnique(p) && a != b && id !in p.conversations
    ensures var (p', made) := Opened(p, a, b, id, keys, payer, now, true);
            && made in DirectBetween(p', a, b)
            && Opened(p', a, b, id', keys', payer', now', saved') == (p', made)
            && Opened(p', b, a, id', keys', payer', now', saved') == (p', made)
  {
    var (p', made) := Opened(p, a, b, id, keys, payer, now, true);
    if DirectBetween(p, a, b) == {} {
      assert a in p'.conversations[id].room.members && b in p'.conversations[id].room.members;
      forall i | i in DirectBetween(p', a, b) ensures i == made {
        assert i != id ==> i in DirectBetween(p, a, b);
      }
    }
    BetweenDependsOnConversations(p', p', a, b);
    assert DirectBetween(p', a, b) == {made};
  }

  lemma CreatedIsDirect(p: Platform, id: ConversationId, a: Account, b: Account, keys: Keys, payer: Account, now: nat)
    requires id in p.conversations && p.conversations[id] == Created(Direct, a, {b}, keys, payer, now, true)
    ensures id in DirectBetween(p, a, b)
  {
    assert a in p.conversations[id].room.members && b in p.conversations[id].room.members;
  }

  /** Two creations that each search before the other has saved make two. */
  lemma OverlappingCreationsMakeTwo(p: Platform, a: Account, b: Account, i: ConversationId, j: ConversationId,
                                    keys: Keys, payer: Account, now: nat)
    requires p.creations == map[] && a != b && DirectBetween(p, a, b) == {}
    requires i != j && i !in p.conversations && j !in p.conversations
    ensures var steps := [BeginDirect(0, a, b), FindNone(0), BeginDirect(1, b, a), FindNone(1),
                          SaveConversation(0, i, keys, payer), SaveMembers(0, now),
                          SaveConversation(1, j, keys, payer), SaveMembers(1, now)];
            exists states: seq<Platform> ::
              PlatformTrace(states, steps) && states[0] == p && {i, j} <= DirectBetween(states[8], a, b)
  {
    hide Moved, Created, DirectBetween, MembershipsOf, IsDirectBetween;
    SearchFindsNone(p, 0, a, b);
    var p1 := At(p, 0, Seeking(a, b, MembershipsOf(p, a)));
    var p2 := At(p, 0, Sought(Direct, a, {b}));
    BetweenDependsOnConversations(p, p2, a, b);
    SearchFindsNone(p2, 1, b, a);
    var p3 := At(p2, 1, Seeking(b, a, MembershipsOf(p2, b)));
    var p4 := At(p2, 1, Sought(Direct, b, {a}));
    SavesMake(p4, 0, Direct, a, {b}, i, keys, payer, now);
    var p5 := At(p4.(conversations := p4.conversations[i := Created(Direct, a, {b}, keys, payer, now, false)]),
                 0, Stored(Direct, a, {b}, i));
    var p6 := Platform(p4.conversations[i := Created(Direct, a, {b}, keys, payer, now, true)], p4.creations - {0});
    SavesMake(p6, 1, Direct, b, {a}, j, keys, payer, now);
    var p7 := At(p6.(conversations := p6.conversations[j := Created(Direct, b, {a}, keys, payer, now, false)]),
                 1, Stored(Direct, b, {a}, j));
    var p8 := Platform(p6.conversations[j := Created(Direct, b, {a}, keys, payer, now, true)], p6.creations - {1});
    CreatedIsDirect(p8, i, a, b, keys, payer, now);
    CreatedIsDirect(p8, j, b, a, keys, payer, now);
    BetweenDependsOnConversations(p8, p8, b, a);
    hide At;
    MovesMakeAPlatformTrace([p, p1, p2, p3, p4, p5, p6, p7, p8],
      [BeginDirect(0, a, b), FindNone(0), BeginDirect(1, b, a), FindNone(1),
       SaveConversation(0, i, keys, payer), SaveMembers(0, now),
       SaveConversation(1, j, keys, payer), SaveMembers(1, now)]);
  }
}
