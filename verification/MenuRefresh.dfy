/** The two projected menus of the input-method addon and their background refreshes. */
module MenuRefresh {
  import opened Results
  import opened EventLog

  type Context = nat
  datatype Kind = Scene | Asr

  /** One menu: the context it is bound to, whether its session is open, its refresh sequence
      number (64 bits) and the snapshot last stored by a refresh. */
  datatype Menu = Menu(context: Option<Context>, open: bool, refreshSeq: nat, snapshot: nat)

  datatype Menus = Menus(scene: Menu, asr: Menu) {
    function Get(kind: Kind): Menu {
      if kind == Scene then scene else asr
    }

    function Set(kind: Kind, menu: Menu): Menus {
      if kind == Scene then Menus(menu, asr) else Menus(scene, menu)
    }
  }

  function Other(kind: Kind): Kind {
    if kind == Scene then Asr else Scene
  }

  // ---- What each operation does to the menus ----

  function Hide(m: Menus, kind: Kind): Menus {
    var menu := m.Get(kind);
    m.Set(kind, menu.(context := None, open := false, refreshSeq := NextWord(menu.refreshSeq)))
  }

  /** Binding a menu hides the other one and, with a dispatcher, takes a new sequence number. */
  function Show(m: Menus, kind: Kind, ic: Context, dispatcher: bool): Menus {
    var hidden := Hide(m, Other(kind));
    var menu := hidden.Get(kind);
    hidden.Set(kind, menu.(context := Some(ic), open := true,
                           refreshSeq := if dispatcher then NextWord(menu.refreshSeq) else menu.refreshSeq))
  }

  /** A finished refresh: its number and context, the fetched snapshot or a failure. */
  datatype Refresh = Refresh(kind: Kind, seqNo: nat, ic: Context, fetched: Option<nat>)

  predicate Passes(m: Menus, r: Refresh, alive: bool, valid: bool) {
    alive && m.Get(r.kind).refreshSeq == r.seqNo && valid
  }

  /** The callback scheduled on the event loop; `projects` says whether a rebuild succeeds. */
  function Deliver(m: Menus, r: Refresh, alive: bool, valid: bool, projects: bool): Menus {
    if !Passes(m, r, alive, valid) then m
    else
      var bound := m.Get(r.kind).context == Some(r.ic);
      if r.fetched.None? then
        if bound then Hide(m, r.kind) else m
      else
        var stored := m.Set(r.kind, m.Get(r.kind).(snapshot := r.fetched.value));
        if bound then Rebuild(stored, r.kind, projects) else stored
  }

  function Rebuild(m: Menus, kind: Kind, projects: bool): Menus {
    var menu := m.Get(kind);
    if !menu.open || menu.context.None? || projects then m else Hide(m, kind)
  }

  /** The addon's fields and the operations that change them. */
  class FcitxMenus {
    var sceneMenu: Menu
    var asrMenu: Menu
    const dispatcher: bool

    ghost function State(): Menus
      reads this
    {
      Menus(sceneMenu, asrMenu)
    }

    constructor (dispatcher: bool)
      ensures State() == Initial() && this.dispatcher == dispatcher
    {
      sceneMenu := Menu(None, false, 0, 0);
      asrMenu := Menu(None, false, 0, 0);
      this.dispatcher := dispatcher;
    }

    method HideSceneMenu()
      modifies this`sceneMenu
      ensures State() == Hide(old(State()), Scene)
    {
      sceneMenu := sceneMenu.(refreshSeq := NextWord(sceneMenu.refreshSeq));
      sceneMenu := ClearProjectedMenu(sceneMenu);
    }

    method HideAsrMenu()
      modifies this`asrMenu
      ensures State() == Hide(old(State()), Asr)
    {
      asrMenu := asrMenu.(refreshSeq := NextWord(asrMenu.refreshSeq));
      asrMenu := ClearProjectedMenu(asrMenu);
    }

    /** Returns the number and context the background thread was started with. */
    method ShowSceneMenu(ic: Option<Context>, recording: bool) returns (started: Option<(nat, Context)>)
      modifies this
      ensures ic.None? || recording ==> State() == old(State()) && started.None?
      ensures ic.Some? && !recording ==>
                State() == Show(old(State()), Scene, ic.value, dispatcher)
                && started == if dispatcher then Some((sceneMenu.refreshSeq, ic.value)) else None
    {
      if ic.None? || recording {
        return None;
      }
      HideAsrMenu();
      sceneMenu := sceneMenu.(context := ic);
      sceneMenu := sceneMenu.(open := true);
      if dispatcher {
        sceneMenu := sceneMenu.(refreshSeq := NextWord(sceneMenu.refreshSeq));
        return Some((sceneMenu.refreshSeq, ic.value));
      }
      return None;
    }

    method ShowAsrMenu(ic: Option<Context>, recording: bool) returns (started: Option<(nat, Context)>)
      modifies this
      ensures ic.None? || recording ==> State() == old(State()) && started.None?
      ensures ic.Some? && !recording ==>
                State() == Show(old(State()), Asr, ic.value, dispatcher)
                && started == if dispatcher then Some((asrMenu.refreshSeq, ic.value)) else None
    {
      if ic.None? || recording {
        return None;
      }
      HideSceneMenu();
      asrMenu := asrMenu.(context := ic);
      asrMenu := asrMenu.(open := true);
      if dispatcher {
        asrMenu := asrMenu.(refreshSeq := NextWord(asrMenu.refreshSeq));
        return Some((asrMenu.refreshSeq, ic.value));
      }
      return None;
    }

    method SceneRefreshed(r: Refresh, alive: bool, valid: bool, projects: bool)
      requires r.kind == Scene
      modifies this
      ensures State() == Deliver(old(State()), r, alive, valid, projects)
    {
      if !alive || sceneMenu.refreshSeq != r.seqNo || !valid {
        return;
      }
      if r.fetched.None? {
        if sceneMenu.context == Some(r.ic) {
          HideSceneMenu();
        }
        return;
      }
      sceneMenu := sceneMenu.(snapshot := r.fetched.value);
      if sceneMenu.context == Some(r.ic) && sceneMenu.open && !projects {
        HideSceneMenu();
      }
    }

    method AsrRefreshed(r: Refresh, alive: bool, valid: bool, projects: bool)
      requires r.kind == Asr
      modifies this
      ensures State() == Deliver(old(State()), r, alive, valid, projects)
    {
      if !alive || asrMenu.refreshSeq != r.seqNo || !valid {
        return;
      }
      if r.fetched.None? {
        if asrMenu.context == Some(r.ic) {
          HideAsrMenu();
        }
        return;
      }
      asrMenu := asrMenu.(snapshot := r.fetched.value);
      if asrMenu.context == Some(r.ic) && asrMenu.open && !projects {
        HideAsrMenu();
      }
    }
  }

  function ClearProjectedMenu(menu: Menu): Menu {
    menu.(context := None, open := false)
  }

  function Initial(): Menus {
    Menus(Menu(None, false, 0, 0), Menu(None, false, 0, 0))
  }

  // ---- Every interleaving of UI events and background threads ----

  /** What happened. `Accepted` is a refresh that passed its checks, with the position of its
      request in the log and whether the menu was bound to the request's context. */
  datatype Event =
    | Requested(kind: Kind, ic: Context)
    | Hidden(kind: Kind)
    | Accepted(kind: Kind, request: nat, ic: Context, bound: bool)
    | Destroyed

  /** A background thread that has not delivered yet; `request` is its position in the log. */
  datatype Thread = Thread(kind: Kind, seqNo: nat, ic: Context, request: nat, fetched: Option<Option<nat>>)

  datatype System = System(
    menus: Menus, dispatcher: bool, recording: bool, alive: bool, gone: set<Context>,
    threads: seq<Thread>, log: seq<Event>)

  datatype Step =
    | ShowMenu(kind: Kind, ic: Context)
    | HideMenu(kind: Kind)
    | RebuildMenu(kind: Kind, projects: bool)
    | Recording(on: bool)
    | Fetch(thread: nat, result: Option<nat>)
    | DeliverTo(thread: nat, projects: bool)
    | ContextGone(ic: Context)
    | DestroyAddon

  predicate RebuildHides(m: Menus, kind: Kind, projects: bool) {
    m.Get(kind).open && m.Get(kind).context.Some? && !projects
  }

  function HideIn(s: System, kind: Kind): System {
    s.(menus := Hide(s.menus, kind), log := s.log + [Hidden(kind)])
  }

  function RebuildIn(s: System, kind: Kind, projects: bool): System {
    if RebuildHides(s.menus, kind, projects) then HideIn(s, kind) else s
  }

  /** Showing a menu hides the other one, binds it and starts a thread for the new request. */
  function ShowIn(s: System, kind: Kind, ic: Context): System {
    var hidden := HideIn(s, Other(kind));
    var menus := Show(s.menus, kind, ic, s.dispatcher);
    if !s.dispatcher then hidden.(menus := menus)
    else
      hidden.(menus := menus,
              log := hidden.log + [Requested(kind, ic)],
              threads := s.threads + [Thread(kind, menus.Get(kind).refreshSeq, ic, |hidden.log|, None)])
  }

  function RefreshOf(t: Thread): Refresh
    requires t.fetched.Some?
  {
    Refresh(t.kind, t.seqNo, t.ic, t.fetched.value)
  }

  /** The scheduled callback of a thread runs once: the thread is gone afterwards. */
  function DeliverIn(s: System, thread: nat, projects: bool): System
    requires thread < |s.threads| && s.threads[thread].fetched.Some?
  {
    var t := s.threads[thread];
    var rest := s.(threads := s.threads[..thread] + s.threads[thread + 1..]);
    if !Passes(s.menus, RefreshOf(t), s.alive, t.ic !in s.gone) then rest
    else
      var bound := s.menus.Get(t.kind).context == Some(t.ic);
      var accepted := rest.(log := s.log + [Accepted(t.kind, t.request, t.ic, bound)]);
      if t.fetched.value.None? then
        if bound then HideIn(accepted, t.kind) else accepted
      else
        var stored := accepted.(menus := s.menus.Set(t.kind, s.menus.Get(t.kind).(snapshot := t.fetched.value.value)));
        if bound then RebuildIn(stored, t.kind, projects) else stored
  }

  /** The system's step changes the menus exactly as the callback does. */
  lemma DeliverInDelivers(s: System, thread: nat, projects: bool)
    requires thread < |s.threads| && s.threads[thread].fetched.Some?
    ensures DeliverIn(s, thread, projects).menus ==
            Deliver(s.menus, RefreshOf(s.threads[thread]), s.alive, s.threads[thread].ic !in s.gone, projects)
  {
  }

  /** The destructor ends the lifetime token and moves both sequence numbers on. */
  function DestroyIn(s: System): System {
    var scene := s.menus.scene.(refreshSeq := NextWord(s.menus.scene.refreshSeq));
    var asr := s.menus.asr.(refreshSeq := NextWord(s.menus.asr.refreshSeq));
    s.(alive := false, menus := Menus(scene, asr), log := s.log + [Destroyed])
  }

  /** One step; a step that is not possible in the state changes nothing. */
  function Apply(s: System, step: Step): System {
    match step
    case ShowMenu(kind, ic) => if s.recording || !s.alive then s else ShowIn(s, kind, ic)
    case HideMenu(kind) => HideIn(s, kind)
    case RebuildMenu(kind, projects) => RebuildIn(s, kind, projects)
    case Recording(on) => s.(recording := on)
    case Fetch(thread, result) =>
      if thread < |s.threads| && s.threads[thread].fetched.None? then
        s.(threads := s.threads[thread := s.threads[thread].(fetched := Some(result))])
      else s
    case DeliverTo(thread, projects) =>
      if thread < |s.threads| && s.threads[thread].fetched.Some? then DeliverIn(s, thread, projects) else s
    case ContextGone(ic) => s.(gone := s.gone + {ic})
    case DestroyAddon => DestroyIn(s)
  }

  function Run(s: System, steps: seq<Step>): System {
    if steps == [] then s else Apply(Run(s, steps[..|steps| - 1]), steps[|steps| - 1])
  }

  function Start(dispatcher: bool): System {
    System(Initial(), dispatcher, false, true, {}, [], [])
  }

  /** The log entries that move the sequence number of a kind. */
  ghost function Moves(kind: Kind): Event -> bool {
    (e: Event) => match e
      case Requested(k, _) => k == kind
      case Hidden(k) => k == kind
      case Accepted(_, _, _, _) => false
      case Destroyed => true
  }

  /** The request a thread stands for, and what its number and the menu's binding say now. */
  ghost predicate ThreadOk(s: System, t: Thread) {
    && t.request < |s.log| && s.log[t.request] == Requested(t.kind, t.ic)
    && t.seqNo == Word(Count(s.log[..t.request + 1], Moves(t.kind)))
    && (Count(s.log[t.request + 1..], Moves(t.kind)) == 0 ==> s.menus.Get(t.kind).context == Some(t.ic))
  }

  /** An accepted refresh answers a request of its kind and context; the moves since then are a
      multiple of 2^64, and if there were none the menu was bound to the requesting context. */
  ghost predicate AcceptedOk(log: seq<Event>, i: nat)
    requires i < |log| && log[i].Accepted?
  {
    var e := log[i];
    && e.request < i && log[e.request] == Requested(e.kind, e.ic)
    && Word(Count(log[e.request + 1..i], Moves(e.kind))) == 0
    && (Count(log[e.request + 1..i], Moves(e.kind)) == 0 ==> e.bound)
  }

  ghost predicate Inv(s: System) {
    && (s.menus.scene.context.None? || s.menus.asr.context.None?)
    && (forall kind: Kind :: s.menus.Get(kind).refreshSeq == Word(Count(s.log, Moves(kind))))
    && (!s.dispatcher ==> s.threads == [])
    && (forall i | 0 <= i < |s.threads| :: ThreadOk(s, s.threads[i]))
    && (forall i | 0 <= i < |s.log| && s.log[i].Accepted? :: AcceptedOk(s.log, i))
  }

  // ---- The invariant is kept by every step ----

  lemma AcceptedKept(log: seq<Event>, e: Event, i: nat)
    requires i < |log| && log[i].Accepted? && AcceptedOk(log, i)
    ensures AcceptedOk(log + [e], i)
  {
    assert (log + [e])[log[i].request + 1..i] == log[log[i].request + 1..i];
  }

  lemma ThreadKept(s: System, next: System, t: Thread, e: Event)
    requires ThreadOk(s, t) && next.log == s.log + [e]
    requires Moves(t.kind)(e) || next.menus.Get(t.kind).context == s.menus.Get(t.kind).context
    ensures ThreadOk(next, t)
  {
    assert next.log[..t.request + 1] == s.log[..t.request + 1];
    assert next.log[t.request + 1..] == s.log[t.request + 1..] + [e];
    CountAppend(s.log[t.request + 1..], e, Moves(t.kind));
  }

  /** One more log entry, with the sequence numbers moved accordingly and no thread added. */
  lemma Extend(s: System, next: System, e: Event)
    requires Inv(s) && next.log == s.log + [e] && next.threads == s.threads && next.dispatcher == s.dispatcher
    requires next.menus.scene.context.None? || next.menus.asr.context.None?
    requires forall kind: Kind :: next.menus.Get(kind).refreshSeq ==
               if Moves(kind)(e) then NextWord(s.menus.Get(kind).refreshSeq) else s.menus.Get(kind).refreshSeq
    requires forall kind: Kind :: Moves(kind)(e) || !s.dispatcher
               || next.menus.Get(kind).context == s.menus.Get(kind).context
    requires e.Accepted? ==> AcceptedOk(next.log, |s.log|)
    ensures Inv(next)
  {
    hide AcceptedOk, ThreadOk, Count, Word, NextWord;
    forall kind: Kind
      ensures next.menus.Get(kind).refreshSeq == Word(Count(next.log, Moves(kind)))
    {
      CountAppend(s.log, e, Moves(kind));
      NextWordOfCount(Count(s.log, Moves(kind)));
    }
    forall i | 0 <= i < |s.threads|
      ensures ThreadOk(next, s.threads[i])
    {
      ThreadKept(s, next, s.threads[i], e);
    }
    forall i | 0 <= i < |next.log| && next.log[i].Accepted?
      ensures AcceptedOk(next.log, i)
    {
      if i < |s.log| {
        AcceptedKept(s.log, e, i);
      }
    }
  }

  lemma HideKeeps(s: System, kind: Kind)
    requires Inv(s)
    ensures Inv(HideIn(s, kind))
  {
    hide Count, ThreadOk, AcceptedOk, Word, NextWord;
    Extend(s, HideIn(s, kind), Hidden(kind));
  }

  lemma DestroyKeeps(s: System)
    requires Inv(s)
    ensures Inv(DestroyIn(s))
  {
    hide Count, ThreadOk, AcceptedOk, Word, NextWord;
    Extend(s, DestroyIn(s), Destroyed);
  }

  lemma ShowKeeps(s: System, kind: Kind, ic: Context)
    requires Inv(s)
    ensures Inv(ShowIn(s, kind, ic))
  {
    hide Count, ThreadOk, AcceptedOk, Word, NextWord;
    var hidden := HideIn(s, Other(kind));
    HideKeeps(s, Other(kind));
    var shown := ShowIn(s, kind, ic);
    if s.dispatcher {
      var before := shown.(threads := s.threads);
      Extend(hidden, before, Requested(kind, ic));
      NewThreadOk(before, shown.threads[|s.threads|]);
      forall i | 0 <= i < |shown.threads|
        ensures ThreadOk(shown, shown.threads[i])
      {
        SameLogAndMenus(before, shown, shown.threads[i]);
      }
    } else {
      ThreadsIgnoreBinding(hidden, shown);
    }
  }

  lemma ThreadsIgnoreBinding(s: System, next: System)
    requires Inv(s) && s.threads == [] && next.threads == [] && next.log == s.log
    requires next.menus.scene.context.None? || next.menus.asr.context.None?
    requires forall kind: Kind :: next.menus.Get(kind).refreshSeq == s.menus.Get(kind).refreshSeq
    ensures Inv(next)
  {
  }

  lemma NewThreadOk(s: System, t: Thread)
    requires Inv(s) && t.request + 1 == |s.log| && s.log[t.request] == Requested(t.kind, t.ic)
    requires t.seqNo == s.menus.Get(t.kind).refreshSeq && s.menus.Get(t.kind).context == Some(t.ic)
    ensures ThreadOk(s, t)
  {
    assert s.log[..t.request + 1] == s.log;
  }

  lemma SameLogAndMenus(s: System, next: System, t: Thread)
    requires next.log == s.log
    requires forall kind: Kind :: next.menus.Get(kind).context == s.menus.Get(kind).context
    ensures ThreadOk(s, t) == ThreadOk(next, t)
  {
  }

  /** A refresh that passes has a number equal to the menu's, hence no moves in between up to a
      multiple of 2^64; and with none, the menu is still bound to its context. */
  lemma PassingIsAcceptable(s: System, t: Thread)
    requires Inv(s) && ThreadOk(s, t) && s.menus.Get(t.kind).refreshSeq == t.seqNo
    ensures AcceptedOk(
              s.log + [Accepted(t.kind, t.request, t.ic, s.menus.Get(t.kind).context == Some(t.ic))], |s.log|)
  {
    hide Count, Word;
    var log := s.log + [Accepted(t.kind, t.request, t.ic, s.menus.Get(t.kind).context == Some(t.ic))];
    SameWord(s.log, t.request + 1, Moves(t.kind));
    assert log[t.request + 1..|s.log|] == s.log[t.request + 1..];
  }

  lemma DeliverKeeps(s: System, thread: nat, projects: bool)
    requires Inv(s) && thread < |s.threads| && s.threads[thread].fetched.Some?
    ensures Inv(DeliverIn(s, thread, projects))
  {
    hide Count, ThreadOk, AcceptedOk, Word, NextWord;
    var t := s.threads[thread];
    var rest := s.(threads := s.threads[..thread] + s.threads[thread + 1..]);
    assert Inv(rest) by {
      forall i | 0 <= i < |rest.threads|
        ensures ThreadOk(rest, rest.threads[i])
      {
        assert rest.threads[i] == s.threads[if i < thread then i else i + 1];
        SameLogAndMenus(s, rest, rest.threads[i]);
      }
    }
    if Passes(s.menus, RefreshOf(t), s.alive, t.ic !in s.gone) {
      PassingIsAcceptable(s, t);
      var bound := s.menus.Get(t.kind).context == Some(t.ic);
      var e := Accepted(t.kind, t.request, t.ic, bound);
      var accepted := rest.(log := s.log + [e]);
      Extend(rest, accepted, e);
      if t.fetched.value.None? {
        HideKeeps(accepted, t.kind);
      } else {
        var stored := accepted.(menus := s.menus.Set(t.kind, s.menus.Get(t.kind).(snapshot := t.fetched.value.value)));
        Extend(rest, stored, e);
        HideKeeps(stored, t.kind);
      }
    }
  }

  lemma {:induction false} StepKeeps(s: System, step: Step)
    requires Inv(s)
    ensures Inv(Apply(s, step))
  {
    hide Count, ThreadOk, AcceptedOk, Word, NextWord, DeliverIn, ShowIn, HideIn, DestroyIn;
    match step
    case ShowMenu(kind, ic) => ShowKeeps(s, kind, ic);
    case HideMenu(kind) => HideKeeps(s, kind);
    case RebuildMenu(kind, projects) => HideKeeps(s, kind);
    case DeliverTo(thread, projects) =>
      if thread < |s.threads| && s.threads[thread].fetched.Some? {
        DeliverKeeps(s, thread, projects);
      }
    case DestroyAddon => DestroyKeeps(s);
    case Fetch(_, _) => UnchangedMenus(s, Apply(s, step));
    case Recording(_) => UnchangedMenus(s, Apply(s, step));
    case ContextGone(_) => UnchangedMenus(s, Apply(s, step));
  }

  lemma UnchangedMenus(s: System, next: System)
    requires Inv(s) && next.menus == s.menus && next.log == s.log && next.dispatcher == s.dispatcher
    requires |next.threads| == |s.threads|
    requires forall i | 0 <= i < |s.threads| :: next.threads[i].(fetched := None) == s.threads[i].(fetched := None)
    ensures Inv(next)
  {
    hide Count, AcceptedOk;
    forall i | 0 <= i < |next.threads|
      ensures ThreadOk(next, next.threads[i])
    {
      var a, b := s.threads[i], next.threads[i];
      assert a.(fetched := None) == b.(fetched := None);
      assert a.kind == b.kind && a.request == b.request && a.ic == b.ic && a.seqNo == b.seqNo;
    }
  }

  // ---- What holds in every run ----

  lemma {:induction false} RunKeeps(dispatcher: bool, steps: seq<Step>)
    ensures Inv(Run(Start(dispatcher), steps))
  {
    hide Apply;
    if steps != [] {
      RunKeeps(dispatcher, steps[..|steps| - 1]);
      StepKeeps(Run(Start(dispatcher), steps[..|steps| - 1]), steps[|steps| - 1]);
    }
  }

  /** The scene menu and the ASR menu are never bound at the same time. */
  lemma {:induction false} NeverBothBound(dispatcher: bool, steps: seq<Step>)
    ensures
      var m := Run(Start(dispatcher), steps).menus;
      m.scene.context.None? || m.asr.context.None?
  {
    RunKeeps(dispatcher, steps);
  }

  /** Every refresh accepted in any interleaving answers a request after which, up to a multiple of
      2^64 moves of its sequence number, no request was made and no hide happened. With fewer moves
      in the whole run it is therefore the newest request, nothing was hidden since, and the menu
      was still bound to the requesting context when the refresh arrived. */
  lemma {:induction false} AcceptedIsNewestAndBound(dispatcher: bool, steps: seq<Step>, i: nat)
    requires i < |Run(Start(dispatcher), steps).log| && Run(Start(dispatcher), steps).log[i].Accepted?
    ensures
      var log := Run(Start(dispatcher), steps).log;
      var e := log[i];
      && e.request < i && log[e.request] == Requested(e.kind, e.ic)
      && Word(Count(log[e.request + 1..i], Moves(e.kind))) == 0
      && (Count(log[e.request + 1..i], Moves(e.kind)) < WORD ==>
            e.bound && forall k | e.request < k < i :: !Moves(e.kind)(log[k]))
  {
    hide Run, AcceptedOk, Count, Word;
    RunKeeps(dispatcher, steps);
    AcceptedInLog(Run(Start(dispatcher), steps).log, i);
  }

  lemma {:induction false} AcceptedInLog(log: seq<Event>, i: nat)
    requires i < |log| && log[i].Accepted? && AcceptedOk(log, i)
    ensures
      var e := log[i];
      && e.request < i && log[e.request] == Requested(e.kind, e.ic)
      && Word(Count(log[e.request + 1..i], Moves(e.kind))) == 0
      && (Count(log[e.request + 1..i], Moves(e.kind)) < WORD ==>
            e.bound && forall k | e.request < k < i :: !Moves(e.kind)(log[k]))
  {
    hide Count, Word;
    var e := log[i];
    var between := log[e.request + 1..i];
    var moves := Count(between, Moves(e.kind));
    if moves < WORD {
      SmallWord(moves);
      CountZero(between, Moves(e.kind));
      forall k | e.request < k < i
        ensures !Moves(e.kind)(log[k])
      {
        assert log[k] == between[k - e.request - 1];
      }
    }
  }

  /** A request that nothing disturbs is accepted: what its thread fetched becomes the menu's
      snapshot, in every state a run can reach. */
  lemma UndisturbedRefreshIsStored(s: System, kind: Kind, ic: Context, snapshot: nat)
    requires Inv(s) && s.alive && !s.recording && s.dispatcher && ic !in s.gone
    ensures
      var n := |s.threads|;
      var shown := Apply(s, ShowMenu(kind, ic));
      var done := Apply(Apply(shown, Fetch(n, Some(snapshot))), DeliverTo(n, true));
      && done.menus.Get(kind) == Menu(Some(ic), true, shown.menus.Get(kind).refreshSeq, snapshot)
      && done.threads == s.threads && done.log == shown.log + [Accepted(kind, |s.log| + 1, ic, true)]
  {
    hide Inv;
    var n := |s.threads|;
    var shown := Apply(s, ShowMenu(kind, ic));
    var fetched := Apply(shown, Fetch(n, Some(snapshot)));
    assert fetched.threads[..n] + fetched.threads[n + 1..] == s.threads;
  }

  /** Once the addon is destroyed no refresh is accepted and none is requested. */
  lemma {:induction false} NothingAfterDestruction(dispatcher: bool, steps: seq<Step>, i: nat, j: nat)
    ensures
      var s := Run(Start(dispatcher), steps);
      && (i < j < |s.log| && s.log[i].Destroyed? ==> !s.log[j].Accepted? && !s.log[j].Requested?)
      && (i < |s.log| && s.log[i].Destroyed? ==> !s.alive)
    decreases |steps|
  {
    hide Inv, Hide, Show, Passes, RebuildHides;
    if steps != [] {
      var before := Run(Start(dispatcher), steps[..|steps| - 1]);
      NothingAfterDestruction(dispatcher, steps[..|steps| - 1], i, j);
      NothingAccepted(before, steps[|steps| - 1]);
    }
  }

  /** A step only appends to the log, and to that of a dead addon neither acceptances nor requests. */
  lemma NothingAccepted(s: System, step: Step)
    ensures
      var next := Apply(s, step);
      && s.log <= next.log && (next.alive ==> s.alive)
      && (!s.alive ==> forall j | |s.log| <= j < |next.log| :: !next.log[j].Accepted? && !next.log[j].Requested?)
      && (forall j | |s.log| <= j < |next.log| && next.log[j].Destroyed? :: !next.alive && |next.log| == j + 1)
  {
    hide Hide, Show, RebuildHides;
  }

  /** A request that nothing disturbs and whose fetch fails, or whose menu cannot be rebuilt, hides the
      menu again. */
  lemma UndisturbedFailureHides(s: System, kind: Kind, ic: Context, result: Option<nat>, projects: bool)
    requires Inv(s) && s.alive && !s.recording && s.dispatcher && ic !in s.gone
    requires result.None? || !projects
    ensures
      var n := |s.threads|;
      var shown := Apply(s, ShowMenu(kind, ic));
      var done := Apply(Apply(shown, Fetch(n, result)), DeliverTo(n, projects));
      && done.menus.Get(kind).context.None? && !done.menus.Get(kind).open
      && done.menus.Get(kind).snapshot == (if result.Some? then result.value else s.menus.Get(kind).snapshot)
      && done.threads == s.threads && done.log == shown.log + [Accepted(kind, |s.log| + 1, ic, true), Hidden(kind)]
  {
    hide Inv;
    var n := |s.threads|;
    var shown := Apply(s, ShowMenu(kind, ic));
    var fetched := Apply(shown, Fetch(n, result));
    assert fetched.threads[..n] + fetched.threads[n + 1..] == s.threads;
  }
}
