/** The swipe page as a state machine: the fixed profile deck, the current
    card index, the last swipe direction, the emoji effect list, and the two
    kinds of timer the page starts (the 300 ms deferred advance and the
    2000 ms emoji expiry), each made an explicit step. */
module Deck {
  import opened Optional
  import opened Gesture
  import opened EmojiQueue
  import Decimal

  /** One card of the deck. Only the last card is final: it has no photo
      and asks the question. */
  datatype Profile = Profile(name: string, image: Option<string>, bio: string, isFinal: bool)

  const Profiles: seq<Profile> := [
    Profile("You 💖", Some("/profiles/profile1.jpg"), "เจอกันในทินเดอร์...หัวใจอยู่ตรงนี้", false),
    Profile("You 🥰", Some("/profiles/profile2.jpg"), "ยิ้มนี้ละ ทำใจละลายเลย", false),
    Profile("Aom 😳", Some("/profiles/profile3.jpg"), "ยังไม่เบื่อใช่ไหม? ฉันไม่เลย", false),
    Profile("💌", None, "Do you want to be my girlfriend?", true)
  ]

  const LastIndex: nat := |Profiles| - 1

  /** The positions of the final cards of a deck. */
  function FinalPositions(deck: seq<Profile>): set<nat>
  {
    set i: nat | i < |deck| && deck[i].isFinal
  }

  /** The deck shape the transition rules rely on: not empty, and its only
      final card is the last one. */
  predicate WellFormedDeck(deck: seq<Profile>)
  {
    |deck| >= 1 && FinalPositions(deck) == {|deck| - 1}
  }

  lemma ProfilesWellFormed()
    ensures |Profiles| == 4
    ensures WellFormedDeck(Profiles)
    ensures |FinalPositions(Profiles)| == 1
  {
    assert forall i: nat :: i < 3 ==> !Profiles[i].isFinal;
    assert 3 in FinalPositions(Profiles);
  }

  /** The page's state: `index`, `dragDirection`, `emojis`, plus the timers
      still to fire. Every pending advance callback is the same closure, so a
      count suffices; expiry callbacks fire oldest first, so they form a
      queue of the bursts that started them. */
  datatype State = State(
    index: nat,
    drag: Option<Direction>,
    emojis: seq<string>,
    pendingAdvances: nat,
    bursts: seq<Burst>)

  const Init: State := State(0, None, [], 0, [])

  /** What every reachable state satisfies: the index names a card, and the
      emoji list holds exactly the tokens of the bursts not yet expired. */
  predicate Valid(s: State)
  {
    s.index < |Profiles| && s.emojis == Flatten(s.bursts)
  }

  predicate CurrentIsFinal(s: State)
    requires s.index < |Profiles|
  {
    Profiles[s.index].isFinal
  }

  /** What a swipe does besides its effect burst: schedule an advance, leave
      for the match page, or show the "swipe right only" warning. */
  datatype Event = Advance | Navigate(url: string) | Rebuff

  datatype Transition = Transition(next: State, event: Event)

  /** The effect each direction spawns. */
  function BurstFor(d: Direction): Burst
  {
    match d
    case Super => Burst("👍", 12)
    case Right => Burst("💖", 6)
    case Left => Burst("😢", 6)
  }

  const MatchPath: string := "/match?t="

  /** The match page URL carrying the moment of the decision. */
  function MatchUrl(now: nat): (url: string)
    ensures |MatchPath| < |url| && url[..|MatchPath|] == MatchPath
    ensures Decimal.Parse(url[|MatchPath|..]) == Some(now)
  {
    Decimal.ParseShow(now);
    assert (MatchPath + Decimal.Show(now))[|MatchPath|..] == Decimal.Show(now);
    MatchPath + Decimal.Show(now)
  }

  /** `handleSwipe(direction)` at clock value `now`. The index itself never
      moves here: on an ordinary card the move is deferred to an advance
      timer, and on the final card it never moves at all. */
  function Swipe(s: State, d: Direction, now: nat): (t: Transition)
    requires s.index < |Profiles|
    ensures t.next.index == s.index
    ensures t.next.emojis == Spawn(s.emojis, BurstFor(d).symbol, BurstFor(d).count)
    ensures t.next.bursts == s.bursts + [BurstFor(d)]
    ensures t.event == Advance <==> !CurrentIsFinal(s)
    ensures t.event.Navigate? <==> CurrentIsFinal(s) && d != Left
    ensures t.event.Navigate? ==> t.event == Navigate(MatchUrl(now))
    ensures t.event == Rebuff <==> CurrentIsFinal(s) && d == Left
    ensures t.next.pendingAdvances == s.pendingAdvances + (if t.event == Advance then 1 else 0)
    ensures t.next.drag == (if t.event == Rebuff then None else Some(d))
  {
    var b := BurstFor(d);
    var spawned := s.(drag := Some(d),
                      emojis := Spawn(s.emojis, b.symbol, b.count),
                      bursts := s.bursts + [b]);
    if CurrentIsFinal(s) then
      if d == Right || d == Super then Transition(spawned, Navigate(MatchUrl(now)))
      else Transition(spawned.(drag := None), Rebuff)
    else
      Transition(spawned.(pendingAdvances := s.pendingAdvances + 1), Advance)
  }

  /** The deferred `setIndex(prev => Math.min(prev + 1, profiles.length - 1))`
      and `setDragDirection(null)`, 300 ms after a swipe on an ordinary card.
      The index moves on by one card unless it already shows the last one,
      and never leaves the deck. */
  function AdvanceFires(s: State): (r: State)
    requires s.pendingAdvances > 0
    ensures r.index <= LastIndex
    ensures s.index <= LastIndex ==> s.index <= r.index <= s.index + 1
    ensures s.index <= LastIndex ==> (r.index == s.index <==> s.index == LastIndex)
    ensures r.drag == None
    ensures r.pendingAdvances == s.pendingAdvances - 1
    ensures r.emojis == s.emojis && r.bursts == s.bursts
    ensures Valid(s) ==> Valid(r)
  {
    s.(index := Min(s.index + 1, LastIndex), drag := None, pendingAdvances := s.pendingAdvances - 1)
  }

  /** The oldest emoji expiry timer fires. In a valid state exactly the
      tokens of the oldest burst disappear; the deck never moves. */
  function ExpiryFires(s: State): (r: State)
    requires |s.bursts| > 0
    ensures r.index == s.index && r.drag == s.drag && r.pendingAdvances == s.pendingAdvances
    ensures r.bursts == s.bursts[1..]
    ensures Valid(s) ==> Valid(r) && r.emojis == Flatten(s.bursts[1..])
  {
    ExpireOldestBurst(s.bursts);
    s.(emojis := Expire(s.emojis, s.bursts[0].count), bursts := s.bursts[1..])
  }

  /** The two kinds of timer touch disjoint parts of the state, so when both
      are due the order in which they fire does not matter. */
  lemma TimersCommute(s: State)
    requires s.pendingAdvances > 0 && |s.bursts| > 0
    ensures AdvanceFires(ExpiryFires(s)) == ExpiryFires(AdvanceFires(s))
  {
  }

  /** On an ordinary card every direction, once its advance callback fires,
      moves the deck exactly one card on; the direction only picks the
      effect. */
  lemma OrdinaryCardAdvancesByOne(s: State, d: Direction, now: nat)
    requires s.index < |Profiles| && !CurrentIsFinal(s)
    ensures Swipe(s, d, now).event == Advance
    ensures AdvanceFires(Swipe(s, d, now).next).index == s.index + 1
    ensures AdvanceFires(Swipe(s, d, now).next).drag == None
  {
    ProfilesWellFormed();
    assert s.index != LastIndex by {
      assert LastIndex in FinalPositions(Profiles);
    }
  }

  /** A user action: a drag released at `offsetX`, or one of the three
      buttons. */
  datatype Input = Drag(offsetX: real) | Button(direction: Direction)

  /** The left / super / right buttons are rendered only under ordinary
      cards. */
  predicate ButtonsShown(s: State)
    requires s.index < |Profiles|
  {
    !CurrentIsFinal(s)
  }

  /** The swipe an input triggers, if any. On the final card only a drag can
      decide. */
  function HandleInput(s: State, input: Input, now: nat): (r: Option<Transition>)
    requires s.index < |Profiles|
    ensures input.Drag? ==> (r.None? <==> InDeadZone(input.offsetX))
    ensures input.Drag? && input.offsetX > Threshold ==> r == Some(Swipe(s, Right, now))
    ensures input.Drag? && input.offsetX < -Threshold ==> r == Some(Swipe(s, Left, now))
    ensures input.Button? ==> (r.Some? <==> ButtonsShown(s))
    ensures input.Button? && ButtonsShown(s) ==> r == Some(Swipe(s, input.direction, now))
    ensures r.Some? && CurrentIsFinal(s) ==> input.Drag?
  {
    match input
    case Drag(offsetX) =>
      (match ClassifyDrag(offsetX)
       case Some(d) => Some(Swipe(s, d, now))
       case None => None)
    case Button(d) =>
      if ButtonsShown(s) then Some(Swipe(s, d, now)) else None
  }

  /** One thing that can happen to the page: a user action at clock value
      `now`, or a pending timer firing. A timer step with no such timer
      pending changes nothing. */
  datatype Step = User(input: Input, now: nat) | AdvanceTimer | ExpiryTimer

  datatype Moved = Moved(next: State, events: seq<Event>)

  function Next(s: State, step: Step): (m: Moved)
    requires s.index < |Profiles|
    ensures m.next.index < |Profiles|
    ensures s.index <= m.next.index
    ensures |m.events| <= 1
  {
    match step
    case User(input, now) =>
      (match HandleInput(s, input, now)
       case Some(t) => Moved(t.next, [t.event])
       case None => Moved(s, []))
    case AdvanceTimer =>
      if s.pendingAdvances > 0 then Moved(AdvanceFires(s), []) else Moved(s, [])
    case ExpiryTimer =>
      if |s.bursts| > 0 then Moved(ExpiryFires(s), []) else Moved(s, [])
  }

  /** The state after a sequence of steps and the events they emitted. */
  function Run(s: State, steps: seq<Step>): (m: Moved)
    requires s.index < |Profiles|
    ensures m.next.index < |Profiles|
    ensures s.index <= m.next.index
    ensures |m.events| <= |steps|
    decreases |steps|
  {
    if |steps| == 0 then Moved(s, [])
    else
      var first := Next(s, steps[0]);
      var rest := Run(first.next, steps[1..]);
      Moved(rest.next, first.events + rest.events)
  }

  lemma NextPreservesValid(s: State, step: Step)
    requires Valid(s)
    ensures Valid(Next(s, step).next)
  {
    match step
    case User(input, now) =>
      var r := HandleInput(s, input, now);
      if r.Some? {
        var d := if input.Button? then input.direction else ClassifyDrag(input.offsetX).value;
        assert r == Some(Swipe(s, d, now));
        SpawnFlatten(s.bursts, BurstFor(d));
      }
    case AdvanceTimer =>
    case ExpiryTimer =>
  }

  /** Every state reachable from a valid one is valid: the index stays on a
      card however many advance callbacks pile up, and the emoji list is
      always the tokens of the unexpired bursts, oldest first. */
  lemma {:induction false} RunPreservesValid(s: State, steps: seq<Step>)
    requires Valid(s)
    ensures Valid(Run(s, steps).next)
    decreases |steps|
  {
    if |steps| > 0 {
      NextPreservesValid(s, steps[0]);
      RunPreservesValid(Next(s, steps[0]).next, steps[1..]);
    }
  }

  /** In a valid state the number of emojis shown is the sum of the counts
      of the bursts whose expiry timers have not fired yet. */
  lemma EmojiCountIsPendingTotal(s: State)
    requires Valid(s)
    ensures |s.emojis| == Total(s.bursts)
  {
    FlattenLength(s.bursts);
  }

  lemma InitValid()
    ensures Valid(Init)
  {
    assert Flatten([]) == [];
  }

  /** Once the final card is showing, no sequence of steps moves the index:
      the final card cannot be skipped. */
  lemma {:induction false} FinalCardIsSticky(s: State, steps: seq<Step>)
    requires s.index < |Profiles| && CurrentIsFinal(s)
    ensures Run(s, steps).next.index == s.index
    decreases |steps|
  {
    ProfilesWellFormed();
    assert s.index == LastIndex by {
      assert s.index in FinalPositions(Profiles);
    }
    if |steps| > 0 {
      var first := Next(s, steps[0]);
      assert first.next.index == s.index;
      FinalCardIsSticky(first.next, steps[1..]);
    }
  }

  /** A drag released far enough to the left. */
  predicate IsRejectDrag(step: Step)
  {
    step.User? && step.input.Drag? && step.input.offsetX < -Threshold
  }

  /** Rejections of the final card, however many, each show the warning and
      leave the index, the direction and the pending advances where they
      were; only the sad-face bursts accumulate. */
  lemma {:induction false} RepeatedRejectsNoDrift(s: State, steps: seq<Step>)
    requires s.index < |Profiles| && CurrentIsFinal(s)
    requires s.drag == None
    requires forall i :: 0 <= i < |steps| ==> IsRejectDrag(steps[i])
    ensures Run(s, steps).events == seq(|steps|, _ => Rebuff)
    ensures Run(s, steps).next == s.(emojis := Run(s, steps).next.emojis,
                                     bursts := s.bursts + seq(|steps|, _ => BurstFor(Left)))
    decreases |steps|
  {
    if |steps| > 0 {
      var first := Next(s, steps[0]);
      var t := Swipe(s, Left, steps[0].now);
      assert first == Moved(t.next, [Rebuff]);
      RepeatedRejectsNoDrift(first.next, steps[1..]);
      var rest := Run(first.next, steps[1..]);
      assert [Rebuff] + seq(|steps| - 1, _ => Rebuff) == seq(|steps|, _ => Rebuff);
      assert s.bursts + [BurstFor(Left)] + seq(|steps| - 1, _ => BurstFor(Left))
          == s.bursts + seq(|steps|, _ => BurstFor(Left));
    }
  }

  /** One step of a run: its events come first, then the rest's. */
  lemma RunFirstStep(s: State, steps: seq<Step>)
    requires s.index < |Profiles| && |steps| > 0
    ensures Run(s, steps).events
         == Next(s, steps[0]).events + Run(Next(s, steps[0]).next, steps[1..]).events
  {
  }

  /** A decisive drag on an ordinary card followed by its callback: one
      `Advance` event and the next card showing. */
  lemma DragAndAdvance(s: State, offsetX: real, now: nat, rest: seq<Step>)
    requires s.index < |Profiles| && !CurrentIsFinal(s) && s.pendingAdvances == 0
    requires !InDeadZone(offsetX)
    ensures var s' := Next(Next(s, User(Drag(offsetX), now)).next, AdvanceTimer).next;
            && s'.index == s.index + 1 && s'.pendingAdvances == 0
            && Run(s, [User(Drag(offsetX), now), AdvanceTimer] + rest).events
               == [Advance] + Run(s', rest).events
  {
    var d := ClassifyDrag(offsetX).value;
    OrdinaryCardAdvancesByOne(s, d, now);
    var first := Next(s, User(Drag(offsetX), now));
    assert first == Moved(Swipe(s, d, now).next, [Advance]);
    var s1 := first.next;
    assert s1.index == s.index && s1.pendingAdvances == 1;
    var second := Next(s1, AdvanceTimer);
    assert second == Moved(AdvanceFires(s1), []);
    var s2 := second.next;
    assert s2.index == s.index + 1 && s2.pendingAdvances == 0;
    var steps := [User(Drag(offsetX), now), AdvanceTimer] + rest;
    RunFirstStep(s, steps);
    assert steps[1..] == [AdvanceTimer] + rest;
    RunFirstStep(s1, steps[1..]);
    assert steps[1..][1..] == rest;
  }

  /** The last ordinary card accepted by a right drag, then the final card
      accepted by another. */
  lemma LastCardsScenario(s: State, t3: nat, now: nat)
    requires s.index == 2 && s.pendingAdvances == 0
    ensures Run(s, [User(Drag(200.0), t3), AdvanceTimer, User(Drag(150.0), now)]).events
            == [Advance, Navigate(MatchUrl(now))]
  {
    var last := [User(Drag(150.0), now)];
    DragAndAdvance(s, 200.0, t3, last);
    var s3 := Next(Next(s, User(Drag(200.0), t3)).next, AdvanceTimer).next;
    RunFirstStep(s3, last);
    assert [User(Drag(200.0), t3), AdvanceTimer] + last
        == [User(Drag(200.0), t3), AdvanceTimer, User(Drag(150.0), now)];
  }

  /** The second ordinary card rejected by a left drag, then the rest of the
      deck accepted. */
  lemma MiddleCardsScenario(s: State, t2: nat, t3: nat, now: nat)
    requires s.index == 1 && s.pendingAdvances == 0
    ensures Run(s, [User(Drag(-150.0), t2), AdvanceTimer,
                    User(Drag(200.0), t3), AdvanceTimer, User(Drag(150.0), now)]).events
            == [Advance, Advance, Navigate(MatchUrl(now))]
  {
    var third := [User(Drag(200.0), t3), AdvanceTimer, User(Drag(150.0), now)];
    DragAndAdvance(s, -150.0, t2, third);
    var s2 := Next(Next(s, User(Drag(-150.0), t2)).next, AdvanceTimer).next;
    LastCardsScenario(s2, t3, now);
    assert [User(Drag(-150.0), t2), AdvanceTimer] + third
        == [User(Drag(-150.0), t2), AdvanceTimer,
            User(Drag(200.0), t3), AdvanceTimer, User(Drag(150.0), now)];
  }

  /** The walk-through of the whole deck from its first card: right, left
      and right drags on the three ordinary cards, each followed by its
      advance callback, then a right drag on the final card leaves for the
      match page. */
  lemma WholeDeckScenario(s: State, t1: nat, t2: nat, t3: nat, now: nat)
    requires s.index == 0 && s.pendingAdvances == 0
    ensures Run(s, [User(Drag(150.0), t1), AdvanceTimer,
                    User(Drag(-150.0), t2), AdvanceTimer,
                    User(Drag(200.0), t3), AdvanceTimer,
                    User(Drag(150.0), now)]).events
            == [Advance, Advance, Advance, Navigate(MatchUrl(now))]
  {
    var second := [User(Drag(-150.0), t2), AdvanceTimer,
                   User(Drag(200.0), t3), AdvanceTimer, User(Drag(150.0), now)];
    DragAndAdvance(s, 150.0, t1, second);
    var s1 := Next(Next(s, User(Drag(150.0), t1)).next, AdvanceTimer).next;
    MiddleCardsScenario(s1, t2, t3, now);
    assert [User(Drag(150.0), t1), AdvanceTimer] + second
        == [User(Drag(150.0), t1), AdvanceTimer,
            User(Drag(-150.0), t2), AdvanceTimer,
            User(Drag(200.0), t3), AdvanceTimer,
            User(Drag(150.0), now)];
  }

  /** Two swipes on one ordinary card before its advance callback fires move
      the deck two cards on: the functional index update counts callbacks,
      not cards. */
  lemma DoubleSwipeSkipsCard()
    ensures Run(Init, [User(Button(Right), 1), User(Button(Left), 2),
                       AdvanceTimer, AdvanceTimer]).next.index == 2
  {
  }
}
