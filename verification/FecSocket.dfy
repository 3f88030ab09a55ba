/** The command socket: which answers each endpoint still owes. */
module FecSocket {
  import opened Common
  import opened FecMessages

  type Endpoint = nat

  /** A registered command: which object it is, and the answer that it expects. */
  datatype Command = Command(id: nat, response: Bytes)

  type Connections = map<Endpoint, seq<Command>>

  /** `check_response`: a command without an expected answer takes any message. */
  predicate Accepts(c: Command, response: Bytes) {
    c.response == [] || c.response == response
  }

  // ----- removing one matching command

  /** The first command that accepts the answer. */
  function FirstMatch(cs: seq<Command>, response: Bytes): (r: Option<nat>)
    ensures r.Some? ==> r.value < |cs| && Accepts(cs[r.value], response)
    ensures r.Some? ==> forall k :: 0 <= k < r.value ==> !Accepts(cs[k], response)
    ensures r.None? ==> forall k :: 0 <= k < |cs| ==> !Accepts(cs[k], response)
  {
    if cs == [] then None
    else if Accepts(cs[0], response) then Some(0)
    else
      match FirstMatch(cs[1..], response)
      case Some(k) => Some(k + 1)
      case None =>
        assert forall k :: 1 <= k < |cs| ==> cs[k] == cs[1..][k - 1];
        None
  }

  /** Swap with the last element, then drop the last. */
  function SwapPop(cs: seq<Command>, i: nat): (r: seq<Command>)
    requires i < |cs|
    ensures |r| == |cs| - 1
  {
    cs[i := cs[|cs| - 1]][..|cs| - 1]
  }

  /** Swap-and-pop takes out exactly the one element. */
  lemma SwapPopRemovesOne(cs: seq<Command>, i: nat)
    requires i < |cs|
    ensures multiset(SwapPop(cs, i)) + multiset{cs[i]} == multiset(cs)
  {
    var n := |cs| - 1;
    var swapped := cs[i := cs[n]][n := cs[i]];
    assert multiset(swapped) == multiset(cs) by {
      assert multiset(cs[i := cs[n]]) == multiset(cs) - multiset{cs[i]} + multiset{cs[n]};
    }
    assert swapped == SwapPop(cs, i) + [cs[i]];
  }

  function Removed(cs: seq<Command>, response: Bytes): seq<Command> {
    match FirstMatch(cs, response)
    case Some(i) => SwapPop(cs, i)
    case None => cs
  }

  // ----- the socket as a function of what happens to it

  datatype Op = Register(e: Endpoint, c: Command) | Receive(e: Endpoint, response: Bytes)

  function Pending(cs: Connections, e: Endpoint): seq<Command> {
    if e in cs then cs[e] else []
  }

  function Next(cs: Connections, op: Op): Connections {
    match op
    case Register(e, c) => cs[e := Pending(cs, e) + [c]]
    case Receive(e, response) => if e in cs then cs[e := Removed(cs[e], response)] else cs
  }

  /** The command that a message makes the socket take off its list. */
  function Recognised(cs: Connections, op: Op, e: Endpoint): multiset<Command> {
    if op.Receive? && op.e == e && e in cs && FirstMatch(cs[e], op.response).Some? then
      multiset{cs[e][FirstMatch(cs[e], op.response).value]}
    else multiset{}
  }

  function Registered(op: Op, e: Endpoint): multiset<Command> {
    if op.Register? && op.e == e then multiset{op.c} else multiset{}
  }

  predicate Finished(cs: Connections) {
    forall e :: e in cs ==> cs[e] == []
  }

  lemma StepAccounts(cs: Connections, op: Op, e: Endpoint)
    ensures multiset(Pending(Next(cs, op), e)) + Recognised(cs, op, e) == multiset(Pending(cs, e)) + Registered(op, e)
  {
    if op.Receive? && op.e == e && e in cs && FirstMatch(cs[e], op.response).Some? {
      SwapPopRemovesOne(cs[e], FirstMatch(cs[e], op.response).value);
    }
  }

  function Run(cs: Connections, ops: seq<Op>): Connections {
    if ops == [] then cs else Next(Run(cs, ops[..|ops| - 1]), ops[|ops| - 1])
  }

  function AllRecognised(cs: Connections, ops: seq<Op>, e: Endpoint): multiset<Command> {
    if ops == [] then multiset{}
    else
      var front := ops[..|ops| - 1];
      AllRecognised(cs, front, e) + Recognised(Run(cs, front), ops[|ops| - 1], e)
  }

  function AllRegistered(ops: seq<Op>, e: Endpoint): multiset<Command> {
    if ops == [] then multiset{}
    else AllRegistered(ops[..|ops| - 1], e) + Registered(ops[|ops| - 1], e)
  }

  lemma Rebalance<T>(before: multiset<T>, out1: multiset<T>, in1: multiset<T>,
                     after: multiset<T>, out2: multiset<T>, in2: multiset<T>)
    requires before + out1 == in1 && after + out2 == before + in2
    ensures after + (out1 + out2) == in1 + in2
  {
    assert after + (out1 + out2) == (after + out2) + out1;
    assert (before + in2) + out1 == (before + out1) + in2;
  }

  /** Over any sequence of registrations and received messages: pending plus recognised commands are
      the registered ones, for every endpoint. */
  lemma {:induction false} PendingAccounting(ops: seq<Op>, e: Endpoint)
    ensures multiset(Pending(Run(map[], ops), e)) + AllRecognised(map[], ops, e) == AllRegistered(ops, e)
  {
    if ops == [] {
    } else {
      var front, last := ops[..|ops| - 1], ops[|ops| - 1];
      PendingAccounting(front, e);
      StepAccounts(Run(map[], front), last, e);
      Rebalance(multiset(Pending(Run(map[], front), e)), AllRecognised(map[], front, e), AllRegistered(front, e),
                multiset(Pending(Run(map[], ops), e)), Recognised(Run(map[], front), last, e), Registered(last, e));
    }
  }

  lemma OwesNothing(ops: seq<Op>, e: Endpoint)
    ensures Pending(Run(map[], ops), e) == [] <==> AllRecognised(map[], ops, e) == AllRegistered(ops, e)
  {
    PendingAccounting(ops, e);
    if AllRecognised(map[], ops, e) == AllRegistered(ops, e) {
      assert |multiset(Pending(Run(map[], ops), e))| == 0;
    }
  }

  /** The socket is finished exactly when for every endpoint all registered commands were recognised. */
  lemma FinishedExactly(ops: seq<Op>)
    ensures Finished(Run(map[], ops)) <==> forall e :: AllRecognised(map[], ops, e) == AllRegistered(ops, e)
  {
    var cs := Run(map[], ops);
    if Finished(cs) {
      forall e: Endpoint
        ensures AllRecognised(map[], ops, e) == AllRegistered(ops, e)
      {
        assert Pending(cs, e) == [];
        OwesNothing(ops, e);
      }
    } else {
      var e :| e in cs && cs[e] != [];
      OwesNothing(ops, e);
      assert Pending(cs, e) != [];
      assert AllRecognised(map[], ops, e) != AllRegistered(ops, e);
    }
  }

  /** A message changes nothing exactly if its endpoint is unknown or none of the endpoint's pending
      commands accepts it. */
  lemma UnrecognisedChangesNothing(cs: Connections, e: Endpoint, response: Bytes)
    ensures Next(cs, Receive(e, response)) == cs
       <==> forall k :: 0 <= k < |Pending(cs, e)| ==> !Accepts(Pending(cs, e)[k], response)
    ensures forall other :: other != e ==> Pending(Next(cs, Receive(e, response)), other) == Pending(cs, other)
  {
    var cs' := Next(cs, Receive(e, response));
    if e in cs && FirstMatch(cs[e], response).Some? {
      var i := FirstMatch(cs[e], response).value;
      assert Accepts(Pending(cs, e)[i], response);
      assert cs'[e] == SwapPop(cs[e], i) && |cs'[e]| == |cs[e]| - 1;
    } else if e in cs {
      assert cs' == cs;
    }
  }

  /** What a message does to the list of its endpoint: the first command that expects it, or expects nothing in
      particular, is taken out, and the last one of the list fills its place. */
  lemma ReceiveExactly(cs: Connections, e: Endpoint, response: Bytes, i: nat)
    requires e in cs && i < |cs[e]| && (cs[e][i].response == [] || cs[e][i].response == response)
    requires forall k :: 0 <= k < i ==> cs[e][k].response != [] && cs[e][k].response != response
    ensures var last := |cs[e]| - 1;
            Next(cs, Receive(e, response))
            == cs[e := if i == last then cs[e][..last] else cs[e][..last][i := cs[e][last]]]
  {
    var list, last := cs[e], |cs[e]| - 1;
    assert FirstMatch(list, response) == Some(i) by {
      assert Accepts(list[i], response);
    }
    assert SwapPop(list, i) == if i == last then list[..last] else list[..last][i := list[last]];
  }

  /** A message that no command of its endpoint expects, or from an unknown endpoint, does nothing; a registered
      command goes to the end of its endpoint's list. */
  lemma NothingExpected(cs: Connections, e: Endpoint, response: Bytes, c: Command)
    ensures (e in cs ==> forall k :: 0 <= k < |cs[e]| ==> cs[e][k].response != [] && cs[e][k].response != response)
       <==> Next(cs, Receive(e, response)) == cs
    ensures Next(cs, Register(e, c)) == cs[e := (if e in cs then cs[e] else []) + [c]]
  {
    UnrecognisedChangesNothing(cs, e, response);
  }

  // ----- a scan for completion while other threads work

  lemma RunPush(cs: Connections, ops: seq<Op>, t: nat)
    requires t < |ops|
    ensures Run(cs, ops[..t + 1]) == Next(Run(cs, ops[..t]), ops[t])
  {
    assert ops[..t + 1][..t] == ops[..t];
  }

  predicate RegistersFrom(ops: seq<Op>, t: nat, e: Endpoint) {
    exists i :: t <= i < |ops| && ops[i].Register? && ops[i].e == e
  }

  /** An endpoint that owes nothing goes on owing nothing until a command is registered for it. */
  lemma {:induction false} EmptyStays(cs: Connections, ops: seq<Op>, e: Endpoint, t: nat, u: nat)
    requires t <= u <= |ops| && Pending(Run(cs, ops[..t]), e) == [] && !RegistersFrom(ops, t, e)
    ensures Pending(Run(cs, ops[..u]), e) == []
    decreases u
  {
    if t == u {
    } else {
      EmptyStays(cs, ops, e, t, u - 1);
      RunPush(cs, ops, u - 1);
    }
  }

  /** The scan saw endpoint `e` empty at some time, and no command was registered for it after that. */
  ghost predicate SeenEmpty(cs: Connections, ops: seq<Op>, e: Endpoint) {
    exists t :: 0 <= t <= |ops| && Pending(Run(cs, ops[..t]), e) == [] && !RegistersFrom(ops, t, e)
  }

  /** A scan that sees every endpoint empty, each at its own time, is not falsely true as long as commands
      are not registered behind its back; messages may be received all the time. */
  lemma ScanIsNotFalselyTrue(cs: Connections, ops: seq<Op>)
    requires forall e :: e in Run(cs, ops) ==> SeenEmpty(cs, ops, e)
    ensures Finished(Run(cs, ops))
  {
    assert ops[..|ops|] == ops;
    forall e | e in Run(cs, ops)
      ensures Run(cs, ops)[e] == []
    {
      assert SeenEmpty(cs, ops, e);
      var t :| 0 <= t <= |ops| && Pending(Run(cs, ops[..t]), e) == [] && !RegistersFrom(ops, t, e);
      EmptyStays(cs, ops, e, t, |ops|);
    }
  }

  lemma RemovedOnly(c: Command)
    ensures Removed([c], c.response) == []
  {
    assert Accepts(c, c.response) && FirstMatch([c], c.response) == Some(0);
    assert |SwapPop([c], 0)| == 0;
  }

  lemma RegisterThenReceive(c: Command)
    ensures var s0: Connections := map[0 := [], 1 := [c]];
            var s1 := Next(s0, Register(0, c));
            var s2 := Next(s1, Receive(1, c.response));
            && s1.Keys == s2.Keys == {0, 1} && s1[0] == s1[1] == [c] && s2[0] == [c] && s2[1] == []
  {
    RemovedOnly(c);
  }

  /** With a registration behind its back it can be: endpoint 0 is seen empty at first and endpoint 1 at last,
      but at no time was the socket finished. */
  lemma RegistrationFoolsScan(c: Command)
    ensures var cs, ops := map[0 := [], 1 := [c]], [Register(0, c), Receive(1, c.response)];
            && Pending(Run(cs, ops[..0]), 0) == [] && Pending(Run(cs, ops[..2]), 1) == []
            && forall t :: 0 <= t <= 2 ==> !Finished(Run(cs, ops[..t]))
  {
    var cs: Connections, ops := map[0 := [], 1 := [c]], [Register(0, c), Receive(1, c.response)];
    var s1 := Next(cs, ops[0]);
    var s2 := Next(s1, ops[1]);
    RegisterThenReceive(c);
    assert ops[..0] == [] && Run(cs, ops[..0]) == cs;
    RunPush(cs, ops, 0);
    RunPush(cs, ops, 1);
    assert Run(cs, ops[..1]) == s1 && Run(cs, ops[..2]) == s2;
    assert cs[1] != [] && s1[1] != [] && s2[0] != [];
  }

  // ----- the class

  class FecCommandSocket {
    var connections: Connections

    constructor ()
      ensures connections == map[]
    {
      connections := map[];
    }

    method RegisterSendAction(e: Endpoint, c: Command)
      modifies this
      ensures connections == Next(old(connections), Register(e, c))
    {
      if e !in connections {
        connections := connections[e := []];
      }
      connections := connections[e := connections[e] + [c]];
    }

    static method RemoveOnceIf(cs: seq<Command>, response: Bytes) returns (found: bool, rest: seq<Command>)
      ensures found <==> FirstMatch(cs, response).Some?
      ensures rest == Removed(cs, response)
    {
      var i := 0;
      while i < |cs| && !Accepts(cs[i], response)
        invariant i <= |cs| && forall k :: 0 <= k < i ==> !Accepts(cs[k], response)
      {
        i := i + 1;
      }
      if i == |cs| {
        return false, cs;
      }
      var last := |cs| - 1;
      rest := cs[i := cs[last]][last := cs[i]];
      rest := rest[..last];
      return true, rest;
    }

    method DeregisterConnection(e: Endpoint, response: Bytes) returns (recognised: bool)
      requires e in connections
      modifies this
      ensures connections == Next(old(connections), Receive(e, response))
      ensures recognised <==> FirstMatch(old(connections)[e], response).Some?
    {
      if connections[e] == [] {
        assert connections == connections[e := []];
        return false;
      }
      var rest: seq<Command>;
      recognised, rest := RemoveOnceIf(connections[e], response);
      connections := connections[e := rest];
    }

    method ResponseHandler(e: Endpoint, response: Bytes)
      modifies this
      ensures connections == Next(old(connections), Receive(e, response))
    {
      if e !in connections {
        return;
      }
      var _ := DeregisterConnection(e, response);
    }

    /** The messages of other threads. */
    method ReceiveAll(messages: seq<(Endpoint, Bytes)>)
      modifies this
      ensures connections.Keys == old(connections.Keys)
      ensures forall e :: e in connections && old(connections)[e] == [] ==> connections[e] == []
    {
      for n := 0 to |messages|
        invariant connections.Keys == old(connections.Keys)
        invariant forall e :: e in connections && old(connections)[e] == [] ==> connections[e] == []
      {
        ResponseHandler(messages[n].0, messages[n].1);
      }
    }

    /** `is_finished` takes no lock: other threads receive messages before each look. If it says yes the socket
        is finished from then on, and if it says no the socket was not finished when it began. */
    method IsFinishedWhileReceiving(turns: seq<seq<(Endpoint, Bytes)>>) returns (r: bool)
      modifies this
      ensures connections.Keys == old(connections.Keys)
      ensures r ==> Finished(connections)
      ensures !r ==> !Finished(old(connections))
    {
      var left := connections.Keys;
      var n := 0;
      r := true;
      while left != {} && r
        invariant connections.Keys == old(connections.Keys) && left <= connections.Keys
        invariant r ==> forall e :: e in connections && e !in left ==> connections[e] == []
        invariant !r ==> !Finished(old(connections))
        invariant forall e :: e in connections && old(connections)[e] == [] ==> connections[e] == []
        decreases left
      {
        if n < |turns| {
          ReceiveAll(turns[n]);
          n := n + 1;
        }
        var e :| e in left;
        left := left - {e};
        r := connections[e] == [];
      }
    }

    method IsFinished() returns (r: bool)
      ensures r <==> Finished(connections)
    {
      var left := connections.Keys;
      r := true;
      while left != {} && r
        invariant left <= connections.Keys
        invariant r <==> forall e :: e in connections && e !in left ==> connections[e] == []
        decreases left
      {
        var e :| e in left;
        left := left - {e};
        r := connections[e] == [];
      }
    }
  }
}
