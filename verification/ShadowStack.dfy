/** Return hooks: the trampoline put into stack slots, the shadow stack of every
    task, and the call stack that both stand for. */
module ShadowStack {
  import opened Blocks

  /** The trampoline's address: nonzero, and no call returns there by itself. */
  const TRAMPOLINE: nat := 1

  datatype Node = Node(frame: nat, retAddr: nat, hook: Option<nat>)

  /** The stack slots that hold return addresses, and the hash table of tasks
      with their lists of nodes, newest first. */
  datatype Machine = Machine(slots: map<nat, nat>, tasks: map<nat, seq<Node>>)

  datatype Memory = Plenty | NoNode | NoTaskNode

  /** `sp` is the address of the slot with the running function's return address.
      A tail call keeps the slot, so its hooks are hooks on the same frame. */
  datatype Event =
    | Call(task: nat, sp: nat, ret: nat)
    | Hook(task: nat, sp: nat, hook: Option<nat>, memory: Memory)
    | Return(task: nat, sp: nat)

  datatype Outcome = Done | NoMemory | Returned(to: nat, ran: seq<nat>) | Bug

  function Slot(slots: map<nat, nat>, sp: nat): nat {
    if sp in slots then slots[sp] else 0
  }

  // ------------------------------------------------------------- the mechanism

  /** Where the walk for the true return address stops. */
  function TrueReturn(nodes: seq<Node>): (k: nat)
    ensures k <= |nodes|
    ensures k < |nodes| ==> nodes[k].retAddr != TRAMPOLINE
    ensures forall i :: 0 <= i < k ==> nodes[i].retAddr == TRAMPOLINE
  {
    if nodes == [] || nodes[0].retAddr != TRAMPOLINE then 0 else 1 + TrueReturn(nodes[1..])
  }

  function PostHook(hook: Option<nat>): seq<nat> {
    match hook
    case None => []
    case Some(h) => [h]
  }

  /** Post hooks of the leading nodes that belong to the frame. */
  function HooksOfFrame(nodes: seq<Node>, frame: nat): seq<nat> {
    if nodes == [] || nodes[0].frame != frame then []
    else PostHook(nodes[0].hook) + HooksOfFrame(nodes[1..], frame)
  }

  /** The trampoline handler. */
  function Handled(m: Machine, task: nat, frame: nat): (Machine, Outcome) {
    if task !in m.tasks then (m, Bug) else
    var nodes := m.tasks[task];
    var k := TrueReturn(nodes);
    if k == |nodes| || nodes[k].retAddr == 0 then (m, Bug) else
    var rest := nodes[k + 1..];
    (Machine(m.slots[frame := nodes[k].retAddr],
             if rest == [] then m.tasks - {task} else m.tasks[task := rest]),
     Returned(nodes[k].retAddr, HooksOfFrame(nodes[..k + 1], frame)))
  }

  function Hooked(m: Machine, task: nat, sp: nat, hook: Option<nat>): Machine {
    var nodes := if task in m.tasks then m.tasks[task] else [];
    Machine(m.slots[sp := TRAMPOLINE],
            m.tasks[task := [Node(sp, Slot(m.slots, sp), hook)] + nodes])
  }

  /** No memory for the task's entry drops the hook without an error. */
  function Perform(m: Machine, e: Event): (Machine, Outcome) {
    match e
    case Call(_, sp, ret) => (m.(slots := m.slots[sp := ret]), Done)
    case Hook(task, sp, hook, memory) =>
      if memory.NoNode? then (m, NoMemory)
      else if task !in m.tasks && memory.NoTaskNode? then (m, Done)
      else (Hooked(m, task, sp, hook), Done)
    case Return(task, sp) =>
      if Slot(m.slots, sp) == TRAMPOLINE then Handled(m, task, sp)
      else (m, Returned(Slot(m.slots, sp), []))
  }

  /** The mechanism with its state updated in place. */
  class Rethooks {
    var slots: map<nat, nat>
    var tasks: map<nat, seq<Node>>

    constructor ()
      ensures View() == Machine(map[], map[])
    {
      slots, tasks := map[], map[];
    }

    function View(): Machine
      reads this
    {
      Machine(slots, tasks)
    }

    method Enter(sp: nat, ret: nat)
      modifies this`slots
      ensures slots == old(slots)[sp := ret]
    {
      slots := slots[sp := ret];
    }

    method PreHandler(task: nat, sp: nat, hook: Option<nat>, memory: Memory) returns (out: Outcome)
      modifies this
      ensures (View(), out) == Perform(old(View()), Hook(task, sp, hook, memory))
    {
      if memory.NoNode? {
        return NoMemory;
      }
      if task !in tasks {
        if memory.NoTaskNode? {
          return Done;
        }
        tasks := tasks[task := []];
      }
      var node := Node(sp, Slot(slots, sp), hook);
      slots := slots[sp := TRAMPOLINE];
      tasks := tasks[task := [node] + tasks[task]];
      assert tasks == Hooked(old(View()), task, sp, hook).tasks;
      return Done;
    }

    /** Walks the task's nodes to the first true return address. */
    method FindRetAddr(task: nat) returns (cur: nat, ret: nat)
      ensures task !in tasks ==> ret == 0
      ensures task in tasks ==>
                cur == TrueReturn(tasks[task]) && ret == if cur < |tasks[task]| then tasks[task][cur].retAddr else 0
    {
      cur, ret := 0, 0;
      if task !in tasks {
        return;
      }
      var nodes := tasks[task];
      while cur < |nodes|
        invariant cur <= |nodes|
        invariant TrueReturn(nodes) == cur + TrueReturn(nodes[cur..])
      {
        if nodes[cur].retAddr != TRAMPOLINE {
          return cur, nodes[cur].retAddr;
        }
        assert nodes[cur..][1..] == nodes[cur + 1..];
        cur := cur + 1;
      }
    }

    method RunPostHooks(nodes: seq<Node>, last: nat, frame: nat) returns (ran: seq<nat>)
      requires last < |nodes|
      ensures ran == HooksOfFrame(nodes[..last + 1], frame)
    {
      ran := [];
      var k := 0;
      while k <= last
        invariant k <= last + 1
        invariant HooksOfFrame(nodes[..last + 1], frame) == ran + HooksOfFrame(nodes[k..last + 1], frame)
      {
        if nodes[k].frame != frame {
          return;
        }
        assert nodes[k..last + 1][1..] == nodes[k + 1..last + 1];
        ran := ran + PostHook(nodes[k].hook);
        k := k + 1;
      }
    }

    method TrampolineHandler(task: nat, frame: nat) returns (out: Outcome)
      modifies this
      ensures (View(), out) == Handled(old(View()), task, frame)
    {
      var node, correct := FindRetAddr(task);
      if correct == 0 {
        return Bug;
      }
      var nodes := tasks[task];
      var ran := RunPostHooks(nodes, node, frame);
      slots := slots[frame := correct];
      tasks := tasks[task := nodes[node + 1..]];
      if tasks[task] == [] {
        tasks := tasks - {task};
        assert tasks == old(tasks) - {task};
      }
      return Returned(correct, ran);
    }

    method Leave(task: nat, sp: nat) returns (out: Outcome)
      modifies this
      ensures (View(), out) == Perform(old(View()), Return(task, sp))
    {
      if Slot(slots, sp) == TRAMPOLINE {
        out := TrampolineHandler(task, sp);
      } else {
        out := Returned(Slot(slots, sp), []);
      }
    }
  }

  // -------------------------------------------------------- ordinary call stack

  /** An open call: where it returns to, and the hooks on it, newest first. */
  datatype Frame = Frame(addr: nat, ret: nat, hooks: seq<Option<nat>>)

  type Stacks = map<nat, seq<Frame>>

  /** A task's open frames, innermost first. */
  function Open(s: Stacks, task: nat): seq<Frame> {
    if task in s then s[task] else []
  }

  predicate AnyHook(frames: seq<Frame>) {
    exists i :: 0 <= i < |frames| && frames[i].hooks != []
  }

  function PostHooks(hooks: seq<Option<nat>>): seq<nat> {
    if hooks == [] then [] else PostHook(hooks[0]) + PostHooks(hooks[1..])
  }

  /** What programs and hooks rely on: calls return in nested order, and the
      address a call returns to is a real one. */
  predicate WellNested(s: Stacks, e: Event) {
    match e
    case Call(_, sp, ret) =>
      && ret != 0 && ret != TRAMPOLINE
      && forall t, i :: t in s && 0 <= i < |s[t]| ==> s[t][i].addr != sp
    case Hook(task, sp, _, _) => Open(s, task) != [] && Open(s, task)[0].addr == sp
    case Return(task, sp) => Open(s, task) != [] && Open(s, task)[0].addr == sp
  }

  predicate Installs(s: Stacks, e: Event) {
    e.Hook? && (e.memory.Plenty? || (e.memory.NoTaskNode? && AnyHook(Open(s, e.task))))
  }

  /** The same event on a call stack that nothing is hidden in. */
  function Expected(s: Stacks, e: Event): (Stacks, Outcome)
    requires WellNested(s, e)
  {
    var open := Open(s, e.task);
    match e
    case Call(task, sp, ret) => (s[task := [Frame(sp, ret, [])] + open], Done)
    case Hook(task, _, hook, memory) =>
      if Installs(s, e) then (s[task := [open[0].(hooks := [hook] + open[0].hooks)] + open[1..]], Done)
      else (s, if memory.NoNode? then NoMemory else Done)
    case Return(task, _) => (s[task := open[1..]], Returned(open[0].ret, PostHooks(open[0].hooks)))
  }

  // ------------------------------------------------------------------ refinement

  /** The nodes one frame accounts for: only its oldest hook saw the true return
      address, the others saw the trampoline. */
  function NodesOf(addr: nat, ret: nat, hooks: seq<Option<nat>>): (nodes: seq<Node>)
    ensures |nodes| == |hooks|
    ensures forall i :: 0 <= i < |nodes| ==>
              nodes[i] == Node(addr, if i == |nodes| - 1 then ret else TRAMPOLINE, hooks[i])
  {
    if hooks == [] then []
    else [Node(addr, if |hooks| == 1 then ret else TRAMPOLINE, hooks[0])] + NodesOf(addr, ret, hooks[1..])
  }

  function Shadow(frames: seq<Frame>): seq<Node> {
    if frames == [] then []
    else NodesOf(frames[0].addr, frames[0].ret, frames[0].hooks) + Shadow(frames[1..])
  }

  predicate FrameInPlace(slots: map<nat, nat>, f: Frame) {
    && f.ret != 0 && f.ret != TRAMPOLINE
    && Slot(slots, f.addr) == if f.hooks == [] then f.ret else TRAMPOLINE
  }

  predicate OwnSlots(s: Stacks) {
    forall t, i, u, j :: t in s && u in s && 0 <= i < |s[t]| && 0 <= j < |s[u]| && s[t][i].addr == s[u][j].addr ==>
      t == u && i == j
  }

  /** One task's part of the refinement. */
  predicate TaskInPlace(m: Machine, task: nat, frames: seq<Frame>) {
    && (forall f :: f in frames ==> FrameInPlace(m.slots, f))
    && (if task in m.tasks then AnyHook(frames) && m.tasks[task] == Shadow(frames) else !AnyHook(frames))
  }

  /** The mechanism stands for the call stacks. */
  ghost predicate Refines(m: Machine, s: Stacks) {
    OwnSlots(s) && forall t :: TaskInPlace(m, t, Open(s, t))
  }

  lemma ShadowCons(f: Frame, rest: seq<Frame>)
    ensures Shadow([f] + rest) == NodesOf(f.addr, f.ret, f.hooks) + Shadow(rest)
  {
    assert ([f] + rest)[1..] == rest;
  }

  lemma TopHook(f: Frame, rest: seq<Frame>)
    ensures AnyHook([f] + rest) <==> f.hooks != [] || AnyHook(rest)
  {
    var frames := [f] + rest;
    assert frames[0] == f;
    if AnyHook(rest) {
      var i :| 0 <= i < |rest| && rest[i].hooks != [];
      assert frames[i + 1].hooks != [];
    }
    if AnyHook(frames) && f.hooks == [] {
      var i :| 0 <= i < |frames| && frames[i].hooks != [];
      assert rest[i - 1].hooks != [];
    }
  }

  lemma {:induction false} ShadowEmpty(frames: seq<Frame>)
    ensures Shadow(frames) == [] <==> !AnyHook(frames)
  {
    if frames != [] {
      ShadowEmpty(frames[1..]);
      TopHook(frames[0], frames[1..]);
      assert frames == [frames[0]] + frames[1..];
      ShadowCons(frames[0], frames[1..]);
    }
  }

  lemma WalkStops(nodes: seq<Node>, k: nat)
    requires k < |nodes| && nodes[k].retAddr != TRAMPOLINE
    requires forall i :: 0 <= i < k ==> nodes[i].retAddr == TRAMPOLINE
    ensures TrueReturn(nodes) == k
  {
  }

  lemma {:induction false} FrameHooks(addr: nat, ret: nat, hooks: seq<Option<nat>>)
    ensures HooksOfFrame(NodesOf(addr, ret, hooks), addr) == PostHooks(hooks)
  {
    if hooks != [] {
      FrameHooks(addr, ret, hooks[1..]);
      assert NodesOf(addr, ret, hooks)[1..] == NodesOf(addr, ret, hooks[1..]);
    }
  }

  /** The handler's walk and loop see exactly the innermost frame. */
  lemma TopOfShadow(f: Frame, rest: seq<Node>)
    requires f.hooks != [] && f.ret != TRAMPOLINE
    ensures var nodes := NodesOf(f.addr, f.ret, f.hooks) + rest;
            var k := TrueReturn(nodes);
            && k == |f.hooks| - 1
            && nodes[k].retAddr == f.ret
            && nodes[k + 1..] == rest
            && HooksOfFrame(nodes[..k + 1], f.addr) == PostHooks(f.hooks)
  {
    var top := NodesOf(f.addr, f.ret, f.hooks);
    WalkStops(top + rest, |top| - 1);
    assert (top + rest)[..|top|] == top;
    FrameHooks(f.addr, f.ret, f.hooks);
  }

  lemma HookedNodes(f: Frame, hook: Option<nat>)
    ensures NodesOf(f.addr, f.ret, [hook] + f.hooks)
            == [Node(f.addr, if f.hooks == [] then f.ret else TRAMPOLINE, hook)] + NodesOf(f.addr, f.ret, f.hooks)
  {
    assert ([hook] + f.hooks)[1..] == f.hooks;
  }

  lemma CallInPlace(m: Machine, task: nat, frames: seq<Frame>, sp: nat, ret: nat)
    requires TaskInPlace(m, task, frames) && ret != 0 && ret != TRAMPOLINE
    requires forall f :: f in frames ==> f.addr != sp
    ensures TaskInPlace(Perform(m, Call(task, sp, ret)).0, task, [Frame(sp, ret, [])] + frames)
  {
    TopHook(Frame(sp, ret, []), frames);
    ShadowCons(Frame(sp, ret, []), frames);
  }

  lemma HookShadows(nodes: seq<Node>, f: Frame, rest: seq<Frame>, hook: Option<nat>)
    requires if AnyHook([f] + rest) then nodes == Shadow([f] + rest) else nodes == []
    ensures [Node(f.addr, if f.hooks == [] then f.ret else TRAMPOLINE, hook)] + nodes
            == Shadow([f.(hooks := [hook] + f.hooks)] + rest)
  {
    HookedNodes(f, hook);
    ShadowEmpty([f] + rest);
    ShadowCons(f, rest);
    ShadowCons(f.(hooks := [hook] + f.hooks), rest);
  }

  lemma HookInPlace(m: Machine, task: nat, f: Frame, rest: seq<Frame>, hook: Option<nat>)
    requires TaskInPlace(m, task, [f] + rest)
    requires forall g :: g in rest ==> g.addr != f.addr
    ensures TaskInPlace(Hooked(m, task, f.addr, hook), task, [f.(hooks := [hook] + f.hooks)] + rest)
  {
    assert f in [f] + rest && forall g :: g in rest ==> g in [f] + rest;
    HookShadows(if task in m.tasks then m.tasks[task] else [], f, rest, hook);
    TopHook(f.(hooks := [hook] + f.hooks), rest);
  }

  lemma ReturnInPlace(m: Machine, task: nat, f: Frame, rest: seq<Frame>)
    requires TaskInPlace(m, task, [f] + rest)
    requires forall g :: g in rest ==> g.addr != f.addr
    ensures var (m', out) := Perform(m, Return(task, f.addr));
            TaskInPlace(m', task, rest) && out == Returned(f.ret, PostHooks(f.hooks))
  {
    assert f in [f] + rest && forall g :: g in rest ==> g in [f] + rest;
    TopHook(f, rest);
    ShadowCons(f, rest);
    ShadowEmpty(rest);
    if f.hooks != [] {
      TopOfShadow(f, Shadow(rest));
      assert |Shadow([f] + rest)| > |f.hooks| - 1;
    }
  }

  lemma Apart(m: Machine, s: Stacks, task: nat)
    requires Refines(m, s)
    ensures TaskInPlace(m, task, Open(s, task))
    ensures Open(s, task) != [] ==> forall g :: g in Open(s, task)[1..] ==> g.addr != Open(s, task)[0].addr
  {
  }

  /** Other tasks' slots and nodes stay as they are. */
  lemma OthersInPlace(m: Machine, m': Machine, t: nat, frames: seq<Frame>, sp: nat)
    requires TaskInPlace(m, t, frames)
    requires forall f :: f in frames ==> f.addr != sp
    requires forall a :: a != sp ==> Slot(m'.slots, a) == Slot(m.slots, a)
    requires t in m'.tasks <==> t in m.tasks
    requires t in m.tasks ==> m'.tasks[t] == m.tasks[t]
    ensures TaskInPlace(m', t, frames)
  {
  }

  /** Only the event's own task and slot change. */
  lemma StepFrame(m: Machine, e: Event)
    ensures var m' := Perform(m, e).0;
            && (forall a :: a != e.sp ==> Slot(m'.slots, a) == Slot(m.slots, a))
            && (forall t :: t != e.task ==>
                  (t in m'.tasks <==> t in m.tasks) && (t in m.tasks ==> m'.tasks[t] == m.tasks[t]))
  {
  }

  // ---------------------------------------------------------------------- runs

  datatype Run = Start | Then(run: Run, event: Event)
  {
    predicate Nested()
      decreases this, 0
    {
      match this
      case Start => true
      case Then(run, e) => run.Nested() && WellNested(run.Frames(), e)
    }

    /** The call stacks after the run, as an ordinary machine keeps them. */
    function Frames(): Stacks
      requires Nested()
      decreases this, 1
    {
      match this
      case Start => map[]
      case Then(run, e) => Expected(run.Frames(), e).0
    }

    function Final(): Machine {
      match this
      case Start => Machine(map[], map[])
      case Then(run, e) => Perform(run.Final(), e).0
    }

    /** Hooks put on frames of the task so far. */
    function Installed(task: nat): seq<nat>
      requires Nested()
    {
      match this
      case Start => []
      case Then(run, e) =>
        run.Installed(task) + if e.task == task && Installs(run.Frames(), e) then PostHook(e.hook) else []
    }

    /** Post hooks the mechanism has run for the task so far. */
    function Ran(task: nat): seq<nat> {
      match this
      case Start => []
      case Then(run, e) =>
        var out := Perform(run.Final(), e).1;
        run.Ran(task) + if e.task == task && out.Returned? then out.ran else []
    }
  }

  lemma OwnTask(m: Machine, s: Stacks, e: Event)
    requires Refines(m, s) && WellNested(s, e)
    ensures TaskInPlace(Perform(m, e).0, e.task, Open(Expected(s, e).0, e.task))
    ensures Perform(m, e).1 == Expected(s, e).1
  {
    var open := Open(s, e.task);
    Apart(m, s, e.task);
    match e
    case Call(task, sp, ret) => CallInPlace(m, task, open, sp, ret);
    case Hook(task, sp, hook, _) =>
      assert open == [open[0]] + open[1..];
      if Installs(s, e) { HookInPlace(m, task, open[0], open[1..], hook); }
    case Return(task, sp) =>
      assert open == [open[0]] + open[1..];
      ReturnInPlace(m, task, open[0], open[1..]);
  }

  lemma FewerSlotsApart(s: Stacks, task: nat, frames: seq<Frame>, popped: nat)
    requires OwnSlots(s) && task in s && |frames| + popped == |s[task]|
    requires forall j :: 0 <= j < |frames| ==> frames[j].addr == s[task][j + popped].addr
    ensures OwnSlots(s[task := frames])
  {
  }

  lemma NewSlotApart(s: Stacks, e: Event)
    requires OwnSlots(s) && WellNested(s, e) && e.Call?
    ensures OwnSlots(Expected(s, e).0)
  {
  }

  lemma SlotsStayApart(s: Stacks, e: Event)
    requires OwnSlots(s) && WellNested(s, e)
    ensures OwnSlots(Expected(s, e).0)
  {
    var s' := Expected(s, e).0;
    match e
    case Call(_, _, _) => NewSlotApart(s, e);
    case Hook(task, _, _, _) => if Installs(s, e) { FewerSlotsApart(s, task, s'[task], 0); }
    case Return(task, _) => FewerSlotsApart(s, task, s'[task], 1);
  }

  lemma StepRefines(m: Machine, s: Stacks, e: Event)
    requires Refines(m, s) && WellNested(s, e)
    ensures Refines(Perform(m, e).0, Expected(s, e).0) && Perform(m, e).1 == Expected(s, e).1
  {
    var m', s' := Perform(m, e).0, Expected(s, e).0;
    OwnTask(m, s, e);
    SlotsStayApart(s, e);
    StepFrame(m, e);
    forall t
      ensures TaskInPlace(m', t, Open(s', t))
    {
      if t != e.task {
        assert Open(s', t) == Open(s, t) && TaskInPlace(m, t, Open(s, t));
        OthersInPlace(m, m', t, Open(s, t), e.sp);
      }
    }
  }

  /** After any well-nested run of calls, hooks and returns on any tasks, the next
      event does what it does on an ordinary call stack: a return goes to the true
      address and runs exactly that frame's hooks, newest first, and never finds
      its records missing. A task is registered iff one of its open frames is
      hooked. */
  lemma {:induction false} RunRefines(run: Run)
    requires run.Nested()
    ensures Refines(run.Final(), run.Frames())
    ensures forall task :: task in run.Final().tasks <==> AnyHook(Open(run.Frames(), task))
    ensures forall e :: WellNested(run.Frames(), e) ==>
              Perform(run.Final(), e).1 == Expected(run.Frames(), e).1 != Bug
  {
    match run
    case Start =>
    case Then(prev, e) =>
      RunRefines(prev);
      StepRefines(prev.Final(), prev.Frames(), e);
    forall e | WellNested(run.Frames(), e)
      ensures Perform(run.Final(), e).1 == Expected(run.Frames(), e).1 != Bug
    {
      StepRefines(run.Final(), run.Frames(), e);
    }
  }

  function Nodes(m: Machine, task: nat): seq<Node> {
    if task in m.tasks then m.tasks[task] else []
  }

  /** There is a new node for this hook at the head of the task's list. */
  predicate NewNode(m: Machine, m': Machine, e: Event)
    requires e.Hook?
  {
    Nodes(m', e.task) == [Node(e.sp, Slot(m.slots, e.sp), e.hook)] + Nodes(m, e.task)
  }

  lemma HookedExactly(m: Machine, e: Event)
    requires e.Hook?
    ensures var (m', out) := Perform(m, e);
            && (out == Done <==> !e.memory.NoNode?)
            && (NewNode(m, m', e) <==> e.memory.Plenty? || (e.memory.NoTaskNode? && e.task in m.tasks))
            && (!NewNode(m, m', e) ==> m' == m)
  {
    var m' := Perform(m, e).0;
    if m' == m {
      assert |Nodes(m', e.task)| == |Nodes(m, e.task)|;
    }
  }

  /** What success means to whoever hooks: after any nested run a pre-handler that
      reports no error has installed its hook if and only if memory did not run
      out or the task already had a hooked frame. Otherwise nothing changed. */
  lemma DoneInstallsExactly(run: Run, e: Event)
    requires run.Nested() && e.Hook?
    ensures var (m', out) := Perform(run.Final(), e);
            && (out == Done <==> !e.memory.NoNode?)
            && (out == Done ==>
                  (NewNode(run.Final(), m', e) <==> e.memory.Plenty? || AnyHook(Open(run.Frames(), e.task))))
            && (!NewNode(run.Final(), m', e) ==> m' == run.Final())
  {
    RunRefines(run);
    HookedExactly(run.Final(), e);
  }

  /** Hooks on open frames that have not run. */
  function Waiting(frames: seq<Frame>): seq<nat> {
    if frames == [] then [] else PostHooks(frames[0].hooks) + Waiting(frames[1..])
  }

  lemma WaitingStep(s: Stacks, e: Event)
    requires WellNested(s, e)
    ensures var (s', out) := Expected(s, e);
            multiset(Waiting(Open(s, e.task))) + multiset(if Installs(s, e) then PostHook(e.hook) else [])
            == multiset(Waiting(Open(s', e.task))) + multiset(if out.Returned? then out.ran else [])
  {
    var open := Open(s, e.task);
    match e
    case Call(task, sp, ret) =>
      assert ([Frame(sp, ret, [])] + open)[1..] == open;
    case Hook(_, _, hook, _) =>
      var f := open[0].(hooks := [hook] + open[0].hooks);
      assert ([f] + open[1..])[1..] == open[1..];
      assert f.hooks[1..] == open[0].hooks;
    case Return(_, _) =>
  }

  lemma Balance(installed: seq<nat>, put: seq<nat>, ran: seq<nat>, runs: seq<nat>, before: seq<nat>, after: seq<nat>)
    requires multiset(installed) == multiset(ran) + multiset(before)
    requires multiset(before) + multiset(put) == multiset(after) + multiset(runs)
    ensures multiset(installed + put) == multiset(ran + runs) + multiset(after)
  {
    assert multiset(installed + put) == multiset(installed) + multiset(put);
    assert multiset(ran + runs) == multiset(ran) + multiset(runs);
    calc {
      multiset(installed) + multiset(put);
      multiset(ran) + (multiset(before) + multiset(put));
      multiset(ran) + (multiset(after) + multiset(runs));
      multiset(ran) + multiset(runs) + multiset(after);
    }
  }

  /** Every hook that was put on a frame runs exactly once: it has run, or the
      frame is still open. */
  lemma {:induction false} HooksRunOnce(run: Run, task: nat)
    requires run.Nested()
    ensures multiset(run.Installed(task)) == multiset(run.Ran(task)) + multiset(Waiting(Open(run.Frames(), task)))
  {
    match run
    case Start =>
      assert Waiting(Open(run.Frames(), task)) == [];
    case Then(prev, e) =>
      HooksRunOnce(prev, task);
      RunRefines(prev);
      var (s', out) := Expected(prev.Frames(), e);
      assert Perform(prev.Final(), e).1 == out;
      var put := if e.task == task && Installs(prev.Frames(), e) then PostHook(e.hook) else [];
      var runs := if e.task == task && out.Returned? then out.ran else [];
      if e.task == task {
        WaitingStep(prev.Frames(), e);
      } else {
        assert Open(s', task) == Open(prev.Frames(), task);
      }
      Balance(prev.Installed(task), put, prev.Ran(task), runs,
              Waiting(Open(prev.Frames(), task)), Waiting(Open(s', task)));
  }

  /** The mechanism itself, driven through a run. */
  method Replay(run: Run) returns (hooks: Rethooks)
    ensures fresh(hooks) && hooks.View() == run.Final()
    ensures run.Nested() ==> Refines(hooks.View(), run.Frames())
  {
    match run
    case Start =>
      hooks := new Rethooks();
    case Then(before, e) =>
      hooks := Replay(before);
      match e {
        case Call(_, sp, ret) => hooks.Enter(sp, ret);
        case Hook(task, sp, hook, memory) =>
          var _ := hooks.PreHandler(task, sp, hook, memory);
        case Return(task, sp) =>
          var _ := hooks.Leave(task, sp);
      }
      if run.Nested() { RunRefines(run); }
  }
}
