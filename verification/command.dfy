/** Commands: identified actions of the application that can be executed
    and asked whether they are enabled or checked. A plain command keeps the
    base defaults; a signal command routes the three operations through its
    Execute, Enabled and Checked signals. Connected slots are kept abstractly
    as sequences of callable identities. */
module Commands {

  type CommandId = nat

  /** A connected callable: a free function or functor, or a member function
      bound to an instance. Only its identity matters here. */
  datatype Slot = Functor(fn: nat) | Member(fn: nat, target: nat)

  datatype Command =
    | Plain(id: CommandId)
    | Signalled(id: CommandId, execute: seq<Slot>, enabled: seq<Slot>, checked: seq<Slot>)

  /** How a boolean signal combines the answers of its connected slots. The
      signal's aggregation is not part of this model, so the queries take it
      as a parameter and it is consulted only when a slot is connected. */
  type Aggregate = seq<Slot> -> bool

  /** The id given at construction; commands are immutable, so nothing
      changes it. */
  function GetId(c: Command): (id: CommandId)
    ensures id == c.id
  {
    c.id
  }

  /** A command that keeps the base class's answers to the two queries. */
  function NewCommand(id: CommandId): (c: Command)
    ensures GetId(c) == id
    ensures forall fire: Aggregate :: IsEnabled(c, fire) && !IsChecked(c, fire)
  {
    Plain(id)
  }

  /** A signal command with no slot connected to any of its signals. */
  function NewSignalCommand(id: CommandId): (c: Command)
    ensures GetId(c) == id && c.Signalled?
    ensures c.execute == [] && c.enabled == [] && c.checked == []
  {
    Signalled(id, [], [], [])
  }

  /** A signal command whose Execute signal has the functor `fn` connected. */
  function NewSignalCommandWithFunctor(id: CommandId, fn: nat): (c: Command)
    ensures GetId(c) == id && c.Signalled?
    ensures c.execute == [Functor(fn)] && c.enabled == [] && c.checked == []
  {
    Signalled(id, [Functor(fn)], [], [])
  }

  /** A signal command whose Execute signal has the member function `member`
      of instance `target` connected. */
  function NewSignalCommandWithMember(id: CommandId, member: nat, target: nat): (c: Command)
    ensures GetId(c) == id && c.Signalled?
    ensures c.execute == [Member(member, target)] && c.enabled == [] && c.checked == []
  {
    Signalled(id, [Member(member, target)], [], [])
  }

  /** Executing a signal command fires its Execute signal: the slots that
      run are exactly the connected ones, each once. (A plain command's
      execution is whatever a subclass defines, outside this model.) */
  function Execute(c: Command): (ran: seq<Slot>)
    requires c.Signalled?
    ensures |ran| == |c.execute|
    ensures forall s :: s in ran <==> s in c.execute
    ensures multiset(ran) == multiset(c.execute)
  {
    c.execute
  }

  /** Enabled unless a connected Enabled slot says otherwise; true when
      nothing is connected. */
  function IsEnabled(c: Command, fire: Aggregate): (b: bool)
    ensures c.Plain? ==> b
    ensures c.Signalled? && c.enabled == [] ==> b
    ensures c.Signalled? && c.enabled != [] ==> b == fire(c.enabled)
  {
    match c
    case Plain(_) => true
    case Signalled(_, _, enabled, _) => if enabled == [] then true else fire(enabled)
  }

  /** Checked only if a connected Checked slot says so; false when nothing is
      connected. */
  function IsChecked(c: Command, fire: Aggregate): (b: bool)
    ensures c.Plain? ==> !b
    ensures c.Signalled? && c.checked == [] ==> !b
    ensures c.Signalled? && c.checked != [] ==> b == fire(c.checked)
  {
    match c
    case Plain(_) => false
    case Signalled(_, _, _, checked) => if checked == [] then false else fire(checked)
  }

  /** Every constructor gives a command that is enabled and unchecked,
      whatever aggregation the signals use, and keeps the id it was given. */
  lemma ConstructedCommandsUseDefaults(id: CommandId, fn: nat, member: nat, target: nat,
                                       fire: Aggregate)
    ensures var cs := [NewCommand(id), NewSignalCommand(id),
                       NewSignalCommandWithFunctor(id, fn),
                       NewSignalCommandWithMember(id, member, target)];
            forall i :: 0 <= i < |cs| ==>
              GetId(cs[i]) == id && IsEnabled(cs[i], fire) && !IsChecked(cs[i], fire)
  {
  }

  /** Executing a command built with a callable runs that callable exactly
      once; executing one built without runs nothing. */
  lemma ConstructedCommandsExecute(id: CommandId, fn: nat, member: nat, target: nat)
    ensures Execute(NewSignalCommand(id)) == []
    ensures Execute(NewSignalCommandWithFunctor(id, fn)) == [Functor(fn)]
    ensures Execute(NewSignalCommandWithMember(id, member, target)) == [Member(member, target)]
  {
  }
}
