// What recipients are sent, over every run: each sender id's messages in the
// order it said them, each tried once on every recipient in its snapshot.
module GatewayDelivery {
  import opened Gateway
  import opened GatewayFrames
  import opened GatewayInvariant

  ghost predicate Includes(to: Recipients, t: Socket) {
    exists j :: 0 <= j < |to| && to[j].1 == t
  }

  ghost predicate OneEach(to: Recipients) {
    forall i, j :: 0 <= i < j < |to| ==> to[i].1 != to[j].1
  }

  type Heards = map<DeviceId, seq<Body>>
  type Lists = map<(DeviceId, nat), Recipients>

  // Every copy says who sent it and repeats what that id said, to someone it
  // was tried on.
  ghost predicate CopiesFit(outbox: seq<Sent>, heard: Heards, attempts: Lists) {
    forall k :: 0 <= k < |outbox| && outbox[k].Relayed? ==>
      var Relayed(to, sender, index, body) := outbox[k];
      && index < |Said(heard, sender)| && Said(heard, sender)[index] == body
      && Includes(Tried(attempts, (sender, index)), to)
  }

  // To one socket from one sender id, messages go out in the order they were
  // said, and none twice.
  ghost predicate InOrder(outbox: seq<Sent>) {
    forall j, k :: 0 <= j < k < |outbox| && outbox[j].Relayed? && outbox[k].Relayed?
                   && outbox[j].to == outbox[k].to && outbox[j].sender == outbox[k].sender ==>
      outbox[j].index < outbox[k].index
  }

  ghost predicate ListsFit(heard: Heards, snapshots: Lists, attempts: Lists) {
    && attempts.Keys <= snapshots.Keys
    && (forall key :: key in snapshots ==> key.1 < |Said(heard, key.0)| && OneEach(snapshots[key]))
  }

  predicate HasMessage(p: Phase) { p.Relaying? || p.Sending? }

  // A handler's message is the last thing its id said, and its snapshot is what
  // was tried and what is left to try.
  ghost predicate HandlersFit(phase: Phases, heard: Heards, snapshots: Lists, attempts: Lists) {
    forall w :: w in phase && HasMessage(phase[w]) ==>
      var p := phase[w];
      var key := (p.id, p.index);
      && p.index + 1 == |Said(heard, p.id)| && Said(heard, p.id)[p.index] == p.body
      && (p.Relaying? ==> key !in snapshots)
      && (p.Sending? ==> key in snapshots && Tried(attempts, key) + p.rest == snapshots[key])
  }

  // Whoever is being sent to right now.
  predicate IsSending(p: Phase, key: (DeviceId, nat)) { p.Sending? && (p.id, p.index) == key }

  ghost predicate Complete(phase: Phases, snapshots: Lists, attempts: Lists) {
    forall key :: key in snapshots ==>
      Tried(attempts, key) == snapshots[key] || exists w :: w in phase && IsSending(phase[w], key)
  }

  ghost predicate HasCopy(outbox: seq<Sent>, to: Socket, key: (DeviceId, nat)) {
    exists k :: 0 <= k < |outbox| && IsCopy(outbox[k], to, key)
  }

  predicate IsCopy(m: Sent, to: Socket, key: (DeviceId, nat)) {
    m.Relayed? && m.to == to && (m.sender, m.index) == key
  }

  // Whoever a message was tried on and is still connected was sent a copy.
  ghost predicate Arrived(outbox: seq<Sent>, closed: set<Socket>, attempts: Lists) {
    forall key, t :: key in attempts && Includes(attempts[key], t) && t !in closed ==> HasCopy(outbox, t, key)
  }

  ghost predicate Delivers(s: State) {
    && CopiesFit(s.outbox, s.heard, s.attempts)
    && InOrder(s.outbox)
    && Arrived(s.outbox, s.closed, s.attempts)
    && ListsFit(s.heard, s.snapshots, s.attempts)
    && HandlersFit(s.phase, s.heard, s.snapshots, s.attempts)
    && Complete(s.phase, s.snapshots, s.attempts)
  }

  // ----- steps that send no copies

  lemma QuietOutbox(o: seq<Sent>, o': seq<Sent>, heard: Heards, attempts: Lists)
    requires CopiesFit(o, heard, attempts) && InOrder(o)
    requires o' == o || (|o'| == |o| + 1 && o'[..|o|] == o && !o'[|o|].Relayed?)
    ensures CopiesFit(o', heard, attempts) && InOrder(o')
  {
    hide Said, Tried, Includes;
    assert forall k :: 0 <= k < |o| ==> o[k] == o'[k];
  }

  lemma NewPhase(phase: Phases, heard: Heards, snapshots: Lists, attempts: Lists, w: Socket, p: Phase)
    requires HandlersFit(phase, heard, snapshots, attempts) && Complete(phase, snapshots, attempts)
    requires !HasMessage(p) && (w in phase ==> !phase[w].Sending?)
    ensures HandlersFit(phase[w := p], heard, snapshots, attempts)
    ensures Complete(phase[w := p], snapshots, attempts)
  {
    hide Said, Tried;
    HeardComplete(phase, snapshots, attempts, w, p);
  }

  lemma ArrivedGrows(o: seq<Sent>, o': seq<Sent>, closed: set<Socket>, closed': set<Socket>, attempts: Lists)
    requires Arrived(o, closed, attempts) && closed <= closed' && |o| <= |o'| && o'[..|o|] == o
    ensures Arrived(o', closed', attempts)
  {
    hide IsCopy, Includes;
    forall t, key | HasCopy(o, t, key)
      ensures HasCopy(o', t, key)
    {
      var k :| 0 <= k < |o| && IsCopy(o[k], t, key);
      assert o'[k] == o[k] && IsCopy(o'[k], t, key);
    }
    hide HasCopy;
  }

  lemma BystanderDelivers(s: State, s': State, w: Socket)
    requires Delivers(s) && s.closed <= s'.closed
    requires s'.heard == s.heard && s'.snapshots == s.snapshots && s'.attempts == s.attempts
    requires s'.outbox == s.outbox ||
             (|s'.outbox| == |s.outbox| + 1 && s'.outbox[..|s.outbox|] == s.outbox && !s'.outbox[|s.outbox|].Relayed?)
    requires || s'.phase == s.phase
             || (w in s'.phase && s'.phase == s.phase[w := s'.phase[w]] && !HasMessage(s'.phase[w])
                 && (w in s.phase ==> !s.phase[w].Sending?))
    ensures Delivers(s')
  {
    hide Arrived, CopiesFit, InOrder, ListsFit, HandlersFit, Complete;
    ArrivedGrows(s.outbox, s'.outbox, s.closed, s'.closed, s.attempts);
    QuietOutbox(s.outbox, s'.outbox, s.heard, s.attempts);
    if s'.phase != s.phase {
      NewPhase(s.phase, s.heard, s.snapshots, s.attempts, w, s'.phase[w]);
    }
  }

  // ----- a message comes in

  lemma HearDelivers(s: State, w: Socket, body: Body, target: Target)
    requires Inv(s) && Delivers(s) && w in s.phase && s.phase[w].Open?
    ensures var id, role := s.phase[w].id, s.phase[w].role;
            var said := Said(s.heard, id);
            Delivers(Goto(s.(heard := s.heard[id := said + [body]]), w, Relaying(id, role, |said|, body, target)))
  {
    var id, role := s.phase[w].id, s.phase[w].role;
    var said := Said(s.heard, id);
    var heard' := s.heard[id := said + [body]];
    var p := Relaying(id, role, |said|, body, target);
    forall v | v in s.phase && HasMessage(s.phase[v])
      ensures s.phase[v].id != id
    {
      assert Registered(s.phase[v]) && Registered(s.phase[w]);
    }
    hide Inv;
    HeardCopies(s.outbox, s.heard, s.attempts, id, body);
    HeardHandlers(s.phase, s.heard, s.snapshots, s.attempts, w, p);
    HeardComplete(s.phase, s.snapshots, s.attempts, w, p);
    hide Arrived, CopiesFit, InOrder, HandlersFit, Complete;
  }

  lemma HeardCopies(outbox: seq<Sent>, heard: Heards, attempts: Lists, id: DeviceId, body: Body)
    requires CopiesFit(outbox, heard, attempts)
    ensures CopiesFit(outbox, heard[id := Said(heard, id) + [body]], attempts)
  {
    hide Includes, Tried;
  }

  lemma HeardHandlers(phase: Phases, heard: Heards, snapshots: Lists, attempts: Lists, w: Socket, p: Phase)
    requires HandlersFit(phase, heard, snapshots, attempts) && ListsFit(heard, snapshots, attempts)
    requires p.Relaying? && p.index == |Said(heard, p.id)|
    requires forall v :: v in phase && HasMessage(phase[v]) ==> phase[v].id != p.id
    ensures HandlersFit(phase[w := p], heard[p.id := Said(heard, p.id) + [p.body]], snapshots, attempts)
  {
    hide Tried, OneEach;
  }

  lemma HeardComplete(phase: Phases, snapshots: Lists, attempts: Lists, w: Socket, p: Phase)
    requires Complete(phase, snapshots, attempts)
    requires w in phase ==> !phase[w].Sending?
    ensures Complete(phase[w := p], snapshots, attempts)
  {
    hide Tried;
    var phase' := phase[w := p];
    forall key | key in snapshots && Tried(attempts, key) != snapshots[key]
      ensures exists v :: v in phase' && IsSending(phase'[v], key)
    {
      var v :| v in phase && IsSending(phase[v], key);
      assert v in phase' && IsSending(phase'[v], key);
    }
  }

  // ----- its recipients are fixed

  // OneEach ids have distinct sockets, so a snapshot names no socket twice.
  lemma SnapshotDistinct(s: State, sender: DeviceId, to: Recipients)
    requires Inv(s) && IsSnapshot(s.tables, sender, to)
    ensures OneEach(to)
  {
    forall i, j | 0 <= i < j < |to|
      ensures to[i].1 != to[j].1
    {
      assert to[i].0 != to[j].0;
      assert s.phase[to[i].1].id == to[i].0 && s.phase[to[j].1].id == to[j].0;
    }
  }

  // The only handler with a message of this id.
  ghost predicate OnlyHandler(phase: Phases, w: Socket, id: DeviceId) {
    forall v :: v in phase && v != w && HasMessage(phase[v]) ==> phase[v].id != id
  }

  lemma HandlerIsOnly(s: State, w: Socket)
    requires Inv(s) && w in s.phase && Registered(s.phase[w])
    ensures OnlyHandler(s.phase, w, s.phase[w].id)
  {
    forall v | v in s.phase && v != w && HasMessage(s.phase[v])
      ensures s.phase[v].id != s.phase[w].id
    {
      assert Registered(s.phase[v]);
    }
  }

  lemma SnapshotHandlers(phase: Phases, heard: Heards, snapshots: Lists, attempts: Lists, w: Socket, p: Phase)
    requires HandlersFit(phase, heard, snapshots, attempts) && ListsFit(heard, snapshots, attempts)
    requires w in phase && phase[w].Relaying? && p.Sending? && OnlyHandler(phase, w, p.id)
    requires (p.id, p.index, p.body) == (phase[w].id, phase[w].index, phase[w].body)
    ensures HandlersFit(phase[w := p], heard, snapshots[(p.id, p.index) := p.rest], attempts)
  {
    hide Said, OneEach;
    assert [] + p.rest == p.rest;
  }

  lemma SnapshotComplete(phase: Phases, snapshots: Lists, attempts: Lists, w: Socket, p: Phase)
    requires Complete(phase, snapshots, attempts) && p.Sending?
    requires w in phase ==> !phase[w].Sending?
    ensures Complete(phase[w := p], snapshots[(p.id, p.index) := p.rest], attempts)
  {
    hide Tried;
    HeardComplete(phase, snapshots, attempts, w, p);
    assert IsSending(phase[w := p][w], (p.id, p.index));
  }

  lemma SnapshotDelivers(s: State, w: Socket, to: Recipients)
    requires Inv(s) && Delivers(s) && w in s.phase && s.phase[w].Relaying? && OneEach(to)
    ensures var Relaying(id, role, index, body, _) := s.phase[w];
            Delivers(Goto(s.(snapshots := s.snapshots[(id, index) := to]), w, Sending(id, role, index, body, to)))
  {
    var Relaying(id, role, index, body, _) := s.phase[w];
    var p := Sending(id, role, index, body, to);
    HandlerIsOnly(s, w);
    hide Inv, OnlyHandler;
    assert index < |Said(s.heard, id)|;
    hide Arrived, CopiesFit, InOrder, HandlersFit, Complete, OneEach;
    SnapshotHandlers(s.phase, s.heard, s.snapshots, s.attempts, w, p);
    SnapshotComplete(s.phase, s.snapshots, s.attempts, w, p);
  }

  lemma RouteDelivers(s: State, w: Socket, to: Recipients)
    requires Inv(s) && Delivers(s) && w in s.phase && s.phase[w].Relaying?
    requires s.phase[w].target.Broadcast? ==> OneEach(to)
    ensures Delivers(Route(s, w, to))
  {
    var target := s.phase[w].target;
    var chosen := Chosen(s.tables, target, to);
    if chosen.Some? {
      ChosenDistinct(s.tables, target, to);
      hide Inv, Delivers, OneEach, Chosen;
      SnapshotDelivers(s, w, chosen.value);
    } else {
      hide Inv, Delivers, OneEach, Chosen;
      BystanderDelivers(s, Route(s, w, to), w);
    }
  }

  lemma ChosenDistinct(t: Tables, target: Target, to: Recipients)
    requires Chosen(t, target, to).Some? && (target.Broadcast? ==> OneEach(to))
    ensures OneEach(Chosen(t, target, to).value)
  {
  }

  // ----- one send

  lemma SentCopies(outbox: seq<Sent>, heard: Heards, attempts: Lists, key: (DeviceId, nat), r: (DeviceId, Socket))
    requires CopiesFit(outbox, heard, attempts)
    ensures CopiesFit(outbox, heard, attempts[key := Tried(attempts, key) + [r]])
  {
    hide Said;
    var old' := Tried(attempts, key);
    forall t | Includes(old', t)
      ensures Includes(old' + [r], t)
    {
      var j :| 0 <= j < |old'| && old'[j].1 == t;
      assert (old' + [r])[j].1 == t;
    }
    hide Includes;
  }

  lemma NewCopyFits(outbox: seq<Sent>, heard: Heards, attempts: Lists, m: Sent)
    requires CopiesFit(outbox, heard, attempts) && m.Relayed?
    requires m.index < |Said(heard, m.sender)| && Said(heard, m.sender)[m.index] == m.body
    requires Includes(Tried(attempts, (m.sender, m.index)), m.to)
    ensures CopiesFit(outbox + [m], heard, attempts)
  {
    hide Said, Tried, Includes;
  }

  lemma NextIsNew(tried: Recipients, rest: Recipients)
    requires rest != [] && OneEach(tried + rest)
    ensures !Includes(tried, rest[0].1)
  {
    forall j | 0 <= j < |tried|
      ensures tried[j].1 != rest[0].1
    {
      assert (tried + rest)[j] == tried[j] && (tried + rest)[|tried|] == rest[0];
    }
  }

  // No copy of this message went to the next recipient before.
  lemma NewCopyInOrder(outbox: seq<Sent>, heard: Heards, attempts: Lists, m: Sent, rest: Recipients)
    requires CopiesFit(outbox, heard, attempts) && InOrder(outbox) && m.Relayed?
    requires m.index + 1 == |Said(heard, m.sender)|
    requires rest != [] && rest[0].1 == m.to && OneEach(Tried(attempts, (m.sender, m.index)) + rest)
    ensures InOrder(outbox + [m])
  {
    hide Said, Tried;
    var tried := Tried(attempts, (m.sender, m.index));
    assert !Includes(tried, m.to) by { NextIsNew(tried, rest); }
    hide Includes, OneEach;
  }

  lemma SentArrives(outbox: seq<Sent>, closed: set<Socket>, attempts: Lists, m: Sent, r: (DeviceId, Socket))
    requires Arrived(outbox, closed, attempts) && m.Relayed? && m.to == r.1
    ensures var key := (m.sender, m.index);
            Arrived(if r.1 in closed then outbox else outbox + [m], closed, attempts[key := Tried(attempts, key) + [r]])
  {
    var key := (m.sender, m.index);
    var outbox' := if r.1 in closed then outbox else outbox + [m];
    var tried := Tried(attempts, key);
    ArrivedGrows(outbox, outbox', closed, closed, attempts);
    forall t | Includes(tried + [r], t) && t !in closed
      ensures HasCopy(outbox', t, key)
    {
      var j :| 0 <= j < |tried + [r]| && (tried + [r])[j].1 == t;
      if j < |tried| {
        assert Includes(tried, t) by { assert tried[j].1 == t; }
      } else {
        assert IsCopy(outbox'[|outbox|], t, key);
      }
    }
    hide HasCopy, Includes;
  }

  lemma SentHandlers(phase: Phases, heard: Heards, snapshots: Lists, attempts: Lists, w: Socket, p: Phase,
                     r: (DeviceId, Socket))
    requires HandlersFit(phase, heard, snapshots, attempts)
    requires w in phase && phase[w].Sending? && p.Sending? && OnlyHandler(phase, w, p.id)
    requires phase[w] == p.(rest := [r] + p.rest)
    ensures var key := (p.id, p.index);
            HandlersFit(phase[w := p], heard, snapshots, attempts[key := Tried(attempts, key) + [r]])
  {
    hide Said;
    var tried := Tried(attempts, (p.id, p.index));
    assert tried + ([r] + p.rest) == tried + [r] + p.rest;
  }

  lemma SentComplete(phase: Phases, snapshots: Lists, attempts: Lists, w: Socket, p: Phase, r: (DeviceId, Socket))
    requires Complete(phase, snapshots, attempts)
    requires w in phase && phase[w].Sending? && p.Sending? && (p.id, p.index) == (phase[w].id, phase[w].index)
    ensures var key := (p.id, p.index);
            Complete(phase[w := p], snapshots, attempts[key := Tried(attempts, key) + [r]])
  {
    var key := (p.id, p.index);
    var phase', attempts' := phase[w := p], attempts[key := Tried(attempts, key) + [r]];
    assert IsSending(phase'[w], key);
    forall other | other in snapshots && other != key && Tried(attempts', other) != snapshots[other]
      ensures exists v :: v in phase' && IsSending(phase'[v], other)
    {
      var v :| v in phase && IsSending(phase[v], other);
      assert v in phase' && IsSending(phase'[v], other);
    }
  }

  lemma SendDelivers(s: State, w: Socket)
    requires Inv(s) && Delivers(s) && w in s.phase && s.phase[w].Sending? && s.phase[w].rest != []
    ensures Delivers(Deliver(s, w))
  {
    var Sending(id, role, index, body, rest) := s.phase[w];
    var key, r := (id, index), rest[0];
    var p := Sending(id, role, index, body, rest[1..]);
    var attempts' := s.attempts[key := Tried(s.attempts, key) + [r]];
    HandlerIsOnly(s, w);
    assert rest == [r] + rest[1..];
    assert index + 1 == |Said(s.heard, id)| && Said(s.heard, id)[index] == body && key in s.snapshots
           && Tried(s.attempts, key) + rest == s.snapshots[key];
    assert OneEach(Tried(s.attempts, key) + rest);
    hide Inv, OnlyHandler, Arrived, CopiesFit, InOrder, HandlersFit, Complete, OneEach;
    SentCopies(s.outbox, s.heard, s.attempts, key, r);
    SentArrives(s.outbox, s.closed, s.attempts, Relayed(r.1, id, index, body), r);
    SentHandlers(s.phase, s.heard, s.snapshots, s.attempts, w, p, r);
    SentComplete(s.phase, s.snapshots, s.attempts, w, p, r);
    var m := Relayed(r.1, id, index, body);
    NewCopyInOrder(s.outbox, s.heard, s.attempts, m, rest);
    assert Includes(Tried(attempts', key), r.1) by {
      assert Tried(attempts', key)[|Tried(s.attempts, key)|].1 == r.1;
    }
    NewCopyFits(s.outbox, s.heard, attempts', m);
    assert s.outbox + [] == s.outbox;
  }

  lemma LastSendComplete(phase: Phases, snapshots: Lists, attempts: Lists, w: Socket, p: Phase)
    requires Complete(phase, snapshots, attempts) && w in phase && phase[w].Sending?
    requires var key := (phase[w].id, phase[w].index);
             key in snapshots ==> Tried(attempts, key) == snapshots[key]
    ensures Complete(phase[w := p], snapshots, attempts)
  {
    hide Tried;
    var phase' := phase[w := p];
    forall key | key in snapshots && Tried(attempts, key) != snapshots[key]
      ensures exists v :: v in phase' && IsSending(phase'[v], key)
    {
      var v :| v in phase && IsSending(phase[v], key);
      assert v in phase' && IsSending(phase'[v], key);
    }
  }

  lemma LastSendDelivers(s: State, w: Socket)
    requires Delivers(s) && w in s.phase && s.phase[w].Sending? && s.phase[w].rest == []
    ensures Delivers(Goto(s, w, Open(s.phase[w].id, s.phase[w].role)))
  {
    var Sending(id, role, index, _, rest) := s.phase[w];
    var tried := Tried(s.attempts, (id, index));
    assert tried + rest == tried;
    assert tried == s.snapshots[(id, index)];
    hide CopiesFit, InOrder, ListsFit, Said, Tried, Arrived;
    LastSendComplete(s.phase, s.snapshots, s.attempts, w, Open(id, role));
    hide Complete;
  }

  // ----- every step

  lemma ReceiveDelivers(s: State, w: Socket, frame: Frame)
    requires Inv(s) && Delivers(s) && w in s.phase && s.phase[w].Open?
    ensures Delivers(Hear(s, w, frame))
  {
    hide Inv, Delivers, EndsReceiver;
    if EndsReceiver(s.phase[w].role, frame) {
      BystanderDelivers(s, Hear(s, w, frame), w);
    } else if frame.Object? && !(s.phase[w].role.Desktop? && frame.answer.Some?) {
      HearDelivers(s, w, frame.body, frame.target);
    } else {
      BystanderDelivers(s, Hear(s, w, frame), w);
    }
  }

  lemma BusyStepDelivers(s: State, step: Step)
    requires Inv(s) && Delivers(s) && Enabled(s, step) && !IsAside(step)
    ensures Delivers(Next(s, step))
  {
    hide Inv, Delivers, IsSnapshot, RequestStored, TimedOut, Hear, AnswerSent, Route;
    match step
    case Store(w, rid) => StoreDelivers(s, w, rid);
    case Timeout(w) => TimeoutDelivers(s, w);
    case Receive(w, frame) => ReceiveDelivers(s, w, frame);
    case SendAnswer(w) => AnswerDelivers(s, w);
    case TakeSnapshot(w, to) =>
      if s.phase[w].target.Broadcast? {
        SnapshotDistinct(s, s.phase[w].id, to);
      }
      RouteDelivers(s, w, to);
    case SendNext(w) =>
      if s.phase[w].rest == [] { LastSendDelivers(s, w); } else { SendDelivers(s, w); }
  }

  lemma StepDelivers(s: State, step: Step)
    requires Inv(s) && Delivers(s) && Enabled(s, step)
    ensures Delivers(Next(s, step))
  {
    hide Inv, Delivers, Enabled, Next, IsAside;
    if IsAside(step) {
      AsideStep(s, step);
      BystanderDelivers(s, Next(s, step), step.w);
    } else {
      BusyStepDelivers(s, step);
    }
  }

  lemma StoreDelivers(s: State, w: Socket, rid: RequestId)
    requires Delivers(s) && w in s.phase && s.phase[w].PairStore?
    ensures Delivers(RequestStored(s, w, rid))
  {
    hide Delivers;
    BystanderDelivers(s, RequestStored(s, w, rid), w);
  }

  lemma TimeoutDelivers(s: State, w: Socket)
    requires Delivers(s) && w in s.phase && s.phase[w].PairWait?
    ensures Delivers(TimedOut(s, w))
  {
    hide Delivers;
    BystanderDelivers(s, TimedOut(s, w), w);
  }

  lemma AnswerDelivers(s: State, w: Socket)
    requires Delivers(s) && w in s.phase && s.phase[w].Answering?
    ensures Delivers(AnswerSent(s, w))
  {
    hide Delivers;
    BystanderDelivers(s, AnswerSent(s, w), w);
  }

  lemma {:induction false} ReachableDelivers(steps: seq<Step>)
    requires Runs(steps)
    ensures Delivers(After(steps))
  {
    if steps != [] {
      var before := steps[..|steps| - 1];
      ReachableInv(before);
      ReachableDelivers(before);
      StepDelivers(After(before), steps[|steps| - 1]);
    }
  }

  // ----- what it means for one recipient and one sender

  // The places, in what the sender said, of what this socket was sent from it.
  function Received(outbox: seq<Sent>, t: Socket, id: DeviceId): seq<nat> {
    if outbox == [] then []
    else
      var before, m := Received(outbox[..|outbox| - 1], t, id), outbox[|outbox| - 1];
      if m.Relayed? && m.to == t && m.sender == id then before + [m.index] else before
  }

  // Where each of them is in the outbox.
  ghost predicate AllCopies(outbox: seq<Sent>, t: Socket, id: DeviceId, r: seq<nat>) {
    forall i :: 0 <= i < |r| ==> HasCopy(outbox, t, (id, r[i]))
  }

  predicate Ascending(r: seq<nat>) { forall i, j :: 0 <= i < j < |r| ==> r[i] < r[j] }

  lemma CopiesStay(outbox: seq<Sent>, m: Sent, t: Socket, id: DeviceId, r: seq<nat>)
    requires AllCopies(outbox, t, id, r)
    ensures AllCopies(outbox + [m], t, id, r)
  {
    forall i | 0 <= i < |r|
      ensures HasCopy(outbox + [m], t, (id, r[i]))
    {
      var k :| 0 <= k < |outbox| && IsCopy(outbox[k], t, (id, r[i]));
      assert (outbox + [m])[k] == outbox[k];
    }
  }

  // A new copy comes after all of them.
  lemma CopyIsLast(outbox: seq<Sent>, m: Sent, t: Socket, id: DeviceId, r: seq<nat>)
    requires InOrder(outbox + [m]) && AllCopies(outbox, t, id, r) && Ascending(r)
    requires m.Relayed? && m.to == t && m.sender == id
    ensures Ascending(r + [m.index]) && AllCopies(outbox + [m], t, id, r + [m.index])
  {
    CopiesStay(outbox, m, t, id, r);
    var o := outbox + [m];
    assert o[|outbox|] == m && IsCopy(o[|outbox|], t, (id, m.index));
    hide InOrder;
    forall i | 0 <= i < |r|
      ensures r[i] < m.index
    {
      var k :| 0 <= k < |outbox| && IsCopy(outbox[k], t, (id, r[i]));
      assert o[k] == outbox[k];
      OrderAt(o, k, |outbox|);
    }
  }

  lemma {:induction false} ReceivedFromOutbox(outbox: seq<Sent>, t: Socket, id: DeviceId)
    requires InOrder(outbox)
    ensures AllCopies(outbox, t, id, Received(outbox, t, id)) && Ascending(Received(outbox, t, id))
  {
    if outbox != [] {
      var shorter, m := outbox[..|outbox| - 1], outbox[|outbox| - 1];
      assert outbox == shorter + [m];
      ReceivedFromOutbox(shorter, t, id);
      CopiesStay(shorter, m, t, id, Received(shorter, t, id));
      if m.Relayed? && m.to == t && m.sender == id {
        CopyIsLast(shorter, m, t, id, Received(shorter, t, id));
      }
      hide InOrder, AllCopies, Ascending;
    }
  }

  lemma OrderAt(outbox: seq<Sent>, j: nat, k: nat)
    requires InOrder(outbox) && j < k < |outbox| && outbox[j].Relayed? && outbox[k].Relayed?
    requires outbox[j].to == outbox[k].to && outbox[j].sender == outbox[k].sender
    ensures outbox[j].index < outbox[k].index
  {
  }

  // The socket was sent what this id said in this place, under the id's name.
  predicate Repeated(index: nat, t: Socket, id: DeviceId, s: State) {
    index < |Said(s.heard, id)| && Sent.Relayed(t, id, index, Said(s.heard, id)[index]) in s.outbox
  }

  predicate Repeats(r: seq<nat>, t: Socket, id: DeviceId, s: State) {
    forall i :: 0 <= i < |r| ==> Repeated(r[i], t, id, s)
  }

  lemma CopySaysWhatWasSaid(s: State, t: Socket, id: DeviceId, index: nat)
    requires CopiesFit(s.outbox, s.heard, s.attempts) && HasCopy(s.outbox, t, (id, index))
    ensures Repeated(index, t, id, s)
  {
    hide Includes, Tried, Said;
    var k :| 0 <= k < |s.outbox| && IsCopy(s.outbox[k], t, (id, index));
    assert s.outbox[k] == Sent.Relayed(t, id, index, Said(s.heard, id)[index]);
  }

  // In every run, what a socket is sent from one sender id is an in-order
  // subsequence of what that id said, nothing twice, whoever held the id when.
  lemma ReceivedInOrder(steps: seq<Step>, t: Socket, id: DeviceId)
    requires Runs(steps)
    ensures var s := After(steps);
            var r := Received(s.outbox, t, id);
            Ascending(r) && Repeats(r, t, id, s)
  {
    ReachableDelivers(steps);
    var s := After(steps);
    var r := Received(s.outbox, t, id);
    ReceivedFromOutbox(s.outbox, t, id);
    hide InOrder, CopiesFit, HasCopy, Received, After, Runs, Said;
    forall i | 0 <= i < |r|
      ensures Repeated(r[i], t, id, s)
    {
      CopySaysWhatWasSaid(s, t, id, r[i]);
    }
  }

  // ----- what it means for one broadcast

  // A message's recipients never change once fixed.
  lemma RouteKeepsSnapshots(s: State, w: Socket, to: Recipients, key: (DeviceId, nat))
    requires HandlersFit(s.phase, s.heard, s.snapshots, s.attempts)
    requires w in s.phase && s.phase[w].Relaying? && key in s.snapshots
    ensures key in Route(s, w, to).snapshots && Route(s, w, to).snapshots[key] == s.snapshots[key]
  {
    assert HasMessage(s.phase[w]);
    hide HandlersFit, Closing;
  }

  lemma BusyKeepsSnapshots(s: State, step: Step, key: (DeviceId, nat))
    requires HandlersFit(s.phase, s.heard, s.snapshots, s.attempts) && Enabled(s, step) && key in s.snapshots
    requires step.Receive? || step.SendNext? || step.TakeSnapshot?
    ensures key in Next(s, step).snapshots && Next(s, step).snapshots[key] == s.snapshots[key]
  {
    hide HandlersFit, IsSnapshot, Closing, Route, Tried, Said;
    match step
    case TakeSnapshot(w, to) => RouteKeepsSnapshots(s, w, to, key);
    case _ =>
  }

  lemma PairingKeepsSnapshots(s: State, step: Step)
    requires Enabled(s, step) && (step.Store? || step.Timeout? || step.SendAnswer?)
    ensures Next(s, step).snapshots == s.snapshots
  {
  }

  lemma SnapshotKept(s: State, step: Step, key: (DeviceId, nat))
    requires HandlersFit(s.phase, s.heard, s.snapshots, s.attempts) && Enabled(s, step) && key in s.snapshots
    ensures key in Next(s, step).snapshots && Next(s, step).snapshots[key] == s.snapshots[key]
  {
    hide HandlersFit, Enabled, Next, Quiet, OnlyMoves;
    if IsAside(step) {
      AsideStep(s, step);
    } else if step.Receive? || step.SendNext? || step.TakeSnapshot? {
      BusyKeepsSnapshots(s, step, key);
    } else {
      PairingKeepsSnapshots(s, step);
    }
  }

  lemma {:induction false} SnapshotStays(before: seq<Step>, later: seq<Step>, key: (DeviceId, nat))
    requires Runs(before + later)
    ensures Runs(before)
    ensures key in After(before).snapshots ==>
              key in After(before + later).snapshots &&
              After(before + later).snapshots[key] == After(before).snapshots[key]
    decreases |later|
  {
    if later == [] {
      assert before + later == before;
    } else {
      var last := |later| - 1;
      var shorter := before + later[..last];
      assert (before + later)[..|before + later| - 1] == shorter;
      assert (before + later)[|before + later| - 1] == later[last];
      SnapshotStays(before, later[..last], key);
      ReachableDelivers(shorter);
      if key in After(before).snapshots {
        hide Delivers, Enabled, Next;
        SnapshotKept(After(shorter), later[last], key);
      }
    }
  }

  // A broadcast is tried once on every other device registered when its
  // recipients were fixed, and on no other: the tries so far are always the
  // first of those, and they are all of them once its handler has moved on.
  lemma BroadcastTriedOnce(before: seq<Step>, w: Socket, to: Recipients, later: seq<Step>)
    requires Runs(before + [TakeSnapshot(w, to)] + later)
    ensures Runs(before) && Enabled(After(before), TakeSnapshot(w, to))
    ensures var p := After(before).phase[w];
            var key := (p.id, p.index);
            var s := After(before + [TakeSnapshot(w, to)] + later);
            p.target.Broadcast? ==>
              && IsSnapshot(After(before).tables, p.id, to)
              && Tried(s.attempts, key) <= to
              && ((forall v :: v in s.phase ==> !IsSending(s.phase[v], key)) ==> Tried(s.attempts, key) == to)
  {
    var step := TakeSnapshot(w, to);
    var upto := before + [step];
    var all := upto + later;
    SnapshotStays(upto, later, ("", 0));
    assert upto[..|upto| - 1] == before && upto[|upto| - 1] == step;
    var p := After(before).phase[w];
    var key := (p.id, p.index);
    if p.target.Broadcast? {
      assert key in After(upto).snapshots && After(upto).snapshots[key] == to;
      SnapshotStays(upto, later, key);
      ReachableDelivers(all);
      hide Enabled, Next;
      TriesArePrefix(After(all), key);
    }
  }

  lemma TriesArePrefix(s: State, key: (DeviceId, nat))
    requires Delivers(s) && key in s.snapshots
    ensures Tried(s.attempts, key) <= s.snapshots[key]
    ensures (forall v :: v in s.phase ==> !IsSending(s.phase[v], key)) ==> Tried(s.attempts, key) == s.snapshots[key]
  {
    hide CopiesFit, InOrder, Arrived, ListsFit, Tried, Said;
    if Tried(s.attempts, key) != s.snapshots[key] {
      var v :| v in s.phase && IsSending(s.phase[v], key);
      assert HasMessage(s.phase[v]);
      assert Tried(s.attempts, key) + s.phase[v].rest == s.snapshots[key];
    }
  }

  // Every device that was registered then and is still on that socket got it.
  lemma BroadcastArrives(before: seq<Step>, w: Socket, to: Recipients, later: seq<Step>, d: DeviceId)
    requires Runs(before + [TakeSnapshot(w, to)] + later)
    ensures Runs(before) && Enabled(After(before), TakeSnapshot(w, to))
    ensures var s, p := After(before), After(before).phase[w];
            var key := (p.id, p.index);
            var s' := After(before + [TakeSnapshot(w, to)] + later);
            p.target.Broadcast? && d in s.tables.registry && d != p.id && s.tables.registry[d] !in s'.closed
            && (forall v :: v in s'.phase ==> !IsSending(s'.phase[v], key)) ==>
              HasCopy(s'.outbox, s.tables.registry[d], key)
  {
    BroadcastTriedOnce(before, w, to, later);
    var s, p := After(before), After(before).phase[w];
    var key := (p.id, p.index);
    var s' := After(before + [TakeSnapshot(w, to)] + later);
    ReachableDelivers(before + [TakeSnapshot(w, to)] + later);
    hide After, Runs, HasCopy, Enabled, CopiesFit, InOrder, ListsFit, HandlersFit, Complete;
    if p.target.Broadcast? && d in s.tables.registry && d != p.id && Tried(s'.attempts, key) == to {
      var j :| 0 <= j < |to| && to[j] == (d, s.tables.registry[d]);
      assert Includes(to, s.tables.registry[d]) by { assert to[j].1 == s.tables.registry[d]; }
      assert key in s'.attempts;
    }
  }

  // ----- what it means for a message with a target

  // A message to one registered device is tried once, on that device's socket.
  lemma UnicastTriedOnce(before: seq<Step>, w: Socket, to: Recipients, later: seq<Step>)
    requires Runs(before + [TakeSnapshot(w, to)] + later)
    ensures Runs(before) && Enabled(After(before), TakeSnapshot(w, to))
    ensures var s, p := After(before), After(before).phase[w];
            var key := (p.id, p.index);
            var s' := After(before + [TakeSnapshot(w, to)] + later);
            p.target.Unicast? && p.target.id in s.tables.registry ==>
              && Tried(s'.attempts, key) <= [(p.target.id, s.tables.registry[p.target.id])]
              && ((forall v :: v in s'.phase ==> !IsSending(s'.phase[v], key)) ==> |Tried(s'.attempts, key)| == 1)
  {
    var step := TakeSnapshot(w, to);
    var upto := before + [step];
    var all := upto + later;
    SnapshotStays(upto, later, ("", 0));
    assert upto[..|upto| - 1] == before && upto[|upto| - 1] == step;
    var s, p := After(before), After(before).phase[w];
    var key := (p.id, p.index);
    if p.target.Unicast? && p.target.id in s.tables.registry {
      assert key in After(upto).snapshots;
      SnapshotStays(upto, later, key);
      ReachableDelivers(all);
      hide Enabled, Next, CopiesFit, InOrder, Arrived, ListsFit, HandlersFit, Complete;
      TriesArePrefix(After(all), key);
    }
  }

  // A message nobody will be sent: it was said, and no handler has it any more.
  ghost predicate Dropped(s: State, key: (DeviceId, nat)) {
    && key !in s.snapshots && key.1 < |Said(s.heard, key.0)|
    && (forall v :: v in s.phase && HasMessage(s.phase[v]) ==> (s.phase[v].id, s.phase[v].index) != key)
  }

  lemma HearKeepsDropped(s: State, w: Socket, frame: Frame, key: (DeviceId, nat))
    requires Dropped(s, key) && w in s.phase && s.phase[w].Open?
    ensures Dropped(Hear(s, w, frame), key)
  {
    hide EndsReceiver;
  }

  lemma RouteKeepsDropped(s: State, w: Socket, to: Recipients, key: (DeviceId, nat))
    requires Dropped(s, key) && w in s.phase && s.phase[w].Relaying?
    ensures Dropped(Route(s, w, to), key)
  {
    assert HasMessage(s.phase[w]);
    hide Chosen, Said;
  }

  lemma SendKeepsDropped(s: State, w: Socket, key: (DeviceId, nat))
    requires Dropped(s, key) && w in s.phase && s.phase[w].Sending?
    ensures Dropped(Deliver(s, w), key)
  {
    assert HasMessage(s.phase[w]);
    hide Tried, Said;
  }

  lemma PairingKeepsDropped(s: State, step: Step, key: (DeviceId, nat))
    requires Dropped(s, key) && Enabled(s, step) && (step.Store? || step.Timeout? || step.SendAnswer?)
    ensures Dropped(Next(s, step), key)
  {
    hide Said;
  }

  lemma StepKeepsDropped(s: State, step: Step, key: (DeviceId, nat))
    requires Dropped(s, key) && Enabled(s, step)
    ensures Dropped(Next(s, step), key)
  {
    if IsAside(step) {
      hide Enabled, Next, IsAside, Quiet, Said;
      AsideStep(s, step);
    } else if step.Store? || step.Timeout? || step.SendAnswer? {
      hide Enabled, Next, Dropped;
      PairingKeepsDropped(s, step, key);
    } else {
      hide IsSnapshot, Dropped, Hear, Route, Deliver;
      match step
      case Receive(w, frame) => HearKeepsDropped(s, w, frame, key);
      case TakeSnapshot(w, to) => RouteKeepsDropped(s, w, to, key);
      case SendNext(w) => SendKeepsDropped(s, w, key);
    }
  }

  lemma {:induction false} DroppedStays(before: seq<Step>, later: seq<Step>, key: (DeviceId, nat))
    requires Runs(before + later)
    ensures Runs(before) && (Dropped(After(before), key) ==> Dropped(After(before + later), key))
    decreases |later|
  {
    if later == [] {
      assert before + later == before;
    } else {
      var last := |later| - 1;
      var shorter := before + later[..last];
      assert (before + later)[..|before + later| - 1] == shorter;
      assert (before + later)[|before + later| - 1] == later[last];
      DroppedStays(before, later[..last], key);
      hide Dropped, Enabled, Next;
      if Dropped(After(before), key) {
        StepKeepsDropped(After(shorter), later[last], key);
      }
    }
  }

  // A message to a device that is not connected, or to no device at all, is
  // never sent to anyone.
  lemma UndeliverableIsNeverSent(before: seq<Step>, w: Socket, to: Recipients, later: seq<Step>, t: Socket)
    requires Runs(before + [TakeSnapshot(w, to)] + later)
    ensures Runs(before) && Enabled(After(before), TakeSnapshot(w, to))
    ensures var s, p := After(before), After(before).phase[w];
            Chosen(s.tables, p.target, to).None? ==>
              !HasCopy(After(before + [TakeSnapshot(w, to)] + later).outbox, t, (p.id, p.index))
  {
    var step := TakeSnapshot(w, to);
    var upto := before + [step];
    var all := upto + later;
    SnapshotStays(upto, later, ("", 0));
    assert upto[..|upto| - 1] == before && upto[|upto| - 1] == step;
    var s, p := After(before), After(before).phase[w];
    var key := (p.id, p.index);
    if Chosen(s.tables, p.target, to).None? {
      ReachableDelivers(before);
      ReachableInv(before);
      DropsNow(s, w, to);
      DroppedStays(upto, later, key);
      ReachableDelivers(all);
      hide Enabled, Next;
      DroppedHasNoCopy(After(all), key, t);
    }
  }

  lemma DropsNow(s: State, w: Socket, to: Recipients)
    requires Inv(s) && Delivers(s) && w in s.phase && s.phase[w].Relaying?
    requires Chosen(s.tables, s.phase[w].target, to).None?
    ensures Dropped(Route(s, w, to), (s.phase[w].id, s.phase[w].index))
  {
    HandlerIsOnly(s, w);
    assert HasMessage(s.phase[w]);
    hide Inv, Chosen, CopiesFit, InOrder, Arrived, Complete, ListsFit;
  }

  lemma DroppedHasNoCopy(s: State, key: (DeviceId, nat), t: Socket)
    requires Delivers(s) && Dropped(s, key)
    ensures !HasCopy(s.outbox, t, key)
  {
    assert key !in s.attempts && Tried(s.attempts, key) == [];
    hide InOrder, Arrived, Complete, HandlersFit;
    assert !Includes([], t);
  }
}
