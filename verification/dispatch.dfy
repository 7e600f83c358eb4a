/** The body of the update loop in `main`, as a pure transition on the table of pending
    links. The table is only touched from this sequential loop, so its lock is not part
    of the model. */
module Dispatch {
  import opened Links

  /** One update: `NoMessage` is an update that carries no message. */
  datatype Event =
    | NoMessage
    | Message(userId: int, text: string, isCommand: bool, command: string)

  /** What the loop does in answer; the replies' wording is not modelled. */
  datatype Action =
    | Ignore                              // nothing is sent
    | Greet                               // the `/start` greeting
    | PromptPlatform                      // the two-button platform keyboard
    | NeedLinkFirst                       // "send me a link first"
    | Hint                                // "send me a YouTube or SoundCloud link"
    | Spawn(platform: string, link: string) // a download task is started

  /** `platformChoice`: the link each user sent and has not yet chosen a platform for. */
  type Store = map<int, string>

  const YouTubeChoice: string := "YouTube"
  const SoundCloudChoice: string := "SoundCloud"

  /** The two button labels, compared verbatim. */
  predicate IsPlatformChoice(text: string) {
    text == YouTubeChoice || text == SoundCloudChoice
  }

  /** One iteration of the update loop. */
  function Step(store: Store, ev: Event): (Store, Action) {
    match ev
    case NoMessage => (store, Ignore)
    case Message(user, text, isCommand, command) =>
      if isCommand && command == "start" then (store, Greet)
      else if text == "" then (store, Ignore)
      else if IsLink(text) then (store[user := text], PromptPlatform)
      else if IsPlatformChoice(text) then
        if user in store then (store - {user}, Spawn(text, store[user]))
        else (store, NeedLinkFirst)
      else (store, Hint)
  }

  /** The message is the `start` command, as `Command()` names it with the slash, any bot
      suffix and any arguments dropped; it is answered before anything else. */
  predicate IsStart(ev: Event) {
    ev.Message? && ev.isCommand && ev.command == "start"
  }

  /** Which action a message draws, stated from the message alone: `/start` first, then
      the empty text, then the link test. */
  lemma StepAction(store: Store, ev: Event)
    ensures var action := Step(store, ev).1;
      && (action == Ignore <==> ev.NoMessage? || (!IsStart(ev) && ev.text == ""))
      && (action == Greet <==> IsStart(ev))
      && (action == PromptPlatform <==> ev.Message? && !IsStart(ev) && ev.text != "" && IsLink(ev.text))
  {
    match ev
    case NoMessage =>
    case Message(user, text, _, _) =>
      if IsStart(ev) {
        assert Step(store, ev).1 == Greet;
      } else if text == "" {
        assert Step(store, ev).1 == Ignore;
      } else if IsLink(text) {
        assert Step(store, ev).1 == PromptPlatform;
      } else {
        var action := Step(store, ev).1;
        assert action.Spawn? || action == NeedLinkFirst || action == Hint;
      }
  }

  /** Any other text: a platform name starts a task exactly when the user has a pending
      link and otherwise asks for a link first; a text that is neither a link nor a
      platform name draws the hint. */
  lemma StepOtherText(store: Store, ev: Event)
    ensures var action := Step(store, ev).1;
      && (action.Spawn? <==>
            ev.Message? && !IsStart(ev) && IsPlatformChoice(ev.text) && ev.userId in store)
      && (action == NeedLinkFirst <==>
            ev.Message? && !IsStart(ev) && IsPlatformChoice(ev.text) && ev.userId !in store)
      && (action == Hint <==>
            ev.Message? && !IsStart(ev) && ev.text != "" && !IsLink(ev.text) && !IsPlatformChoice(ev.text))
  {
    match ev
    case NoMessage =>
    case Message(user, text, _, _) =>
      if IsStart(ev) {
      } else if IsPlatformChoice(text) {
        NotLinks();
      } else {
      }
  }

  /** What each action does to the table: only a link prompt writes (overwriting the
      user's earlier link), only a spawn deletes (the user's entry, whose link it carries),
      every other action leaves the table as it was. */
  lemma StepStore(store: Store, ev: Event)
    ensures var (next, action) := Step(store, ev);
      && (action == PromptPlatform ==> next == store[ev.userId := ev.text])
      && (action.Spawn? ==>
            action.platform == ev.text && action.link == store[ev.userId] && next == store - {ev.userId})
      && (!action.Spawn? && action != PromptPlatform ==> next == store)
  {
    match ev
    case NoMessage =>
    case Message(user, text, _, _) =>
      if IsStart(ev) {
        assert Step(store, ev) == (store, Greet);
      } else if text == "" {
        assert Step(store, ev) == (store, Ignore);
      } else if IsLink(text) {
        assert Step(store, ev) == (store[user := text], PromptPlatform);
      } else if IsPlatformChoice(text) {
        if user in store {
          assert Step(store, ev) == (store - {user}, Spawn(text, store[user]));
        } else {
          assert Step(store, ev) == (store, NeedLinkFirst);
        }
      } else {
        assert Step(store, ev) == (store, Hint);
      }
  }

  /** Entries of every other user are untouched. */
  lemma StepFrame(store: Store, ev: Event, u: int)
    requires ev.NoMessage? || ev.userId != u
    ensures var next := Step(store, ev).0;
      (u in next <==> u in store) && (u in store ==> next[u] == store[u])
  {
    match ev
    case NoMessage =>
    case Message(user, text, _, _) =>
      if IsStart(ev) {
      } else if text == "" {
      } else if IsLink(text) {
      } else if IsPlatformChoice(text) {
      } else {
      }
  }

  /** Every pending entry is a text that passed the link test. */
  ghost predicate AllLinks(store: Store) {
    forall u :: u in store ==> IsLink(store[u])
  }

  /** Only links are stored, and so every task is started with a stored link and one of
      the two platform names. */
  lemma StepKeepsLinks(store: Store, ev: Event)
    requires AllLinks(store)
    ensures AllLinks(Step(store, ev).0)
    ensures Step(store, ev).1.Spawn? ==>
      IsPlatformChoice(Step(store, ev).1.platform) && IsLink(Step(store, ev).1.link)
  {
    match ev
    case NoMessage =>
    case Message(user, text, _, _) =>
      if IsStart(ev) {
      } else if text == "" {
      } else if IsLink(text) {
      } else if IsPlatformChoice(text) {
      } else {
      }
  }

  /** The loop over a sequence of updates: the final table and the actions in order. */
  function Run(store: Store, evs: seq<Event>): (Store, seq<Action>)
    decreases |evs|
  {
    if |evs| == 0 then (store, [])
    else
      var (next, action) := Step(store, evs[0]);
      var (last, actions) := Run(next, evs[1..]);
      (last, [action] + actions)
  }

  /** Over any run the table holds only links and every task started carries a link and
      a platform name. */
  lemma {:induction false} RunKeepsLinks(store: Store, evs: seq<Event>)
    requires AllLinks(store)
    ensures AllLinks(Run(store, evs).0)
    ensures forall k :: 0 <= k < |Run(store, evs).1| && Run(store, evs).1[k].Spawn? ==>
      IsPlatformChoice(Run(store, evs).1[k].platform) && IsLink(Run(store, evs).1[k].link)
    decreases |evs|
  {
    if |evs| > 0 {
      var (next, action) := Step(store, evs[0]);
      StepKeepsLinks(store, evs[0]);
      RunKeepsLinks(next, evs[1..]);
      var actions := Run(store, evs).1;
      assert actions == [action] + Run(next, evs[1..]).1;
      forall k | 0 <= k < |actions| && actions[k].Spawn?
        ensures IsPlatformChoice(actions[k].platform) && IsLink(actions[k].link)
      {
        if k > 0 {
          assert actions[k] == Run(next, evs[1..]).1[k - 1];
        }
      }
    }
  }

  /** The update comes from someone other than `u`. */
  predicate NotFrom(ev: Event, u: int) {
    ev.NoMessage? || ev.userId != u
  }

  /** Updates of other users never touch a user's pending link. */
  lemma {:induction false} RunFrame(store: Store, evs: seq<Event>, u: int)
    requires forall k :: 0 <= k < |evs| ==> NotFrom(evs[k], u)
    ensures var last := Run(store, evs).0;
      (u in last <==> u in store) && (u in store ==> last[u] == store[u])
    decreases |evs|
  {
    if |evs| > 0 {
      StepFrame(store, evs[0], u);
      RunFrame(Step(store, evs[0]).0, evs[1..], u);
    }
  }

  /** A plain message from `user`. */
  function Say(user: int, text: string): Event {
    Message(user, text, false, "")
  }

  lemma RunCons(store: Store, ev: Event, evs: seq<Event>)
    ensures Run(store, [ev] + evs)
      == (Run(Step(store, ev).0, evs).0, [Step(store, ev).1] + Run(Step(store, ev).0, evs).1)
  {
    assert ([ev] + evs)[1..] == evs;
  }

  /** A link is stored for its sender and answered with the platform prompt. */
  lemma SayLink(store: Store, user: int, link: string)
    requires IsLink(link)
    ensures Step(store, Say(user, link)) == (store[user := link], PromptPlatform)
  {
  }

  /** A platform name with a pending link starts a task with it and removes it. */
  lemma SayChoicePending(store: Store, user: int, choice: string)
    requires IsPlatformChoice(choice) && user in store
    ensures Step(store, Say(user, choice)) == (store - {user}, Spawn(choice, store[user]))
  {
    NotLinks();
  }

  /** A platform name with nothing pending asks for a link and changes nothing. */
  lemma SayChoiceEmpty(store: Store, user: int, choice: string)
    requires IsPlatformChoice(choice) && user !in store
    ensures Step(store, Say(user, choice)) == (store, NeedLinkFirst)
  {
    NotLinks();
  }

  /** The loop over a single update is that update's step. */
  lemma RunOne(store: Store, ev: Event)
    ensures Run(store, [ev]) == (Step(store, ev).0, [Step(store, ev).1])
  {
    var (next, action) := Step(store, ev);
    RunCons(store, ev, []);
    assert [ev] + [] == [ev];
    assert Run(next, []) == (next, []);
    assert [action] + [] == [action];
  }

  /** A platform name from a user with nothing pending starts no task and changes nothing. */
  lemma ChoiceWithoutLink(store: Store, user: int, choice: string)
    requires IsPlatformChoice(choice) && user !in store
    ensures Run(store, [Say(user, choice)]) == (store, [NeedLinkFirst])
  {
    SayChoiceEmpty(store, user, choice);
    RunOne(store, Say(user, choice));
  }

  /** With a link pending, a platform name starts a task with exactly that link and takes
      it out of the table, so the same name sent again finds nothing. */
  lemma ChoiceTakesLink(store: Store, user: int, choice: string)
    requires IsPlatformChoice(choice) && user in store
    ensures Run(store, [Say(user, choice), Say(user, choice)])
      == (store - {user}, [Spawn(choice, store[user]), NeedLinkFirst])
  {
    var c := Say(user, choice);
    var next := store - {user};
    SayChoicePending(store, user, choice);
    ChoiceWithoutLink(next, user, choice);
    assert [c, c] == [c] + [c];
    RunCons(store, c, [c]);
    assert [Spawn(choice, store[user])] + [NeedLinkFirst] == [Spawn(choice, store[user]), NeedLinkFirst];
  }

  /** A link, then a platform, then the same platform again: the link is prompted for,
      the platform starts a task with that link and consumes it, and the repeated
      platform finds nothing pending. */
  lemma LinkThenChoice(store: Store, user: int, link: string, choice: string)
    requires IsLink(link) && IsPlatformChoice(choice)
    ensures Run(store, [Say(user, link), Say(user, choice), Say(user, choice)])
      == (store - {user}, [PromptPlatform, Spawn(choice, link), NeedLinkFirst])
  {
    var l := Say(user, link);
    var c := Say(user, choice);
    var s1 := store[user := link];
    SayLink(store, user, link);
    ChoiceTakesLink(s1, user, choice);
    assert [l, c, c] == [l] + [c, c];
    RunCons(store, l, [c, c]);
    assert s1 - {user} == store - {user};
    assert [PromptPlatform] + [Spawn(choice, link), NeedLinkFirst]
      == [PromptPlatform, Spawn(choice, link), NeedLinkFirst];
  }

  /** A second link replaces the first: the task started afterwards uses the later one. */
  lemma LaterLinkWins(store: Store, user: int, first: string, second: string, choice: string)
    requires IsLink(first) && IsLink(second) && IsPlatformChoice(choice)
    ensures Run(store, [Say(user, first), Say(user, second), Say(user, choice)]).1
      == [PromptPlatform, PromptPlatform, Spawn(choice, second)]
  {
    var f := Say(user, first);
    var g := Say(user, second);
    var c := Say(user, choice);
    var s1 := store[user := first];
    var s2 := s1[user := second];
    SayLink(store, user, first);
    SayLink(s1, user, second);
    SayChoicePending(s2, user, choice);
    RunOne(s2, c);
    assert [g, c] == [g] + [c];
    RunCons(s1, g, [c]);
    assert Run(s1, [g, c]).1 == [PromptPlatform, Spawn(choice, second)];
    assert [f, g, c] == [f] + [g, c];
    RunCons(store, f, [g, c]);
  }
}
