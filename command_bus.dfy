/**
 * The command bus: a directory from a command's identifier to the ordered
 * list of handlers registered for it, each with the object that registered
 * it. The identifier, which the source derives from the command's type name
 * by reflection, is given here as a key of type `K`; owners are compared by
 * identity, modelled as equality on the type `O`.
 */
module CommandBus {
  import opened Wrappers

  /** The failures registration and removal throw. */
  datatype BusError = ClassNotACommand | CommandNotRegistered

  /** A class handed to registration or removal: its identifier and whether it is a command class at all. */
  datatype CommandClass<K> = CommandClass(key: K, isCommand: bool)

  /** One directory entry: the registering object and its handler. */
  datatype Registration<O, H> = Registration(owner: O, handler: H)

  /** Whether a handler was called on the spot or handed to the performer to run later. */
  datatype Mode = Immediate | Queued

  /** One handler call with the command it was given. */
  datatype HandlerCall<H, M> = HandlerCall(mode: Mode, handler: H, command: M)

  /** The entries of `list` that `owner` did not register, in their order. */
  function WithoutOwner<O(==), H>(list: seq<Registration<O, H>>, owner: O): (r: seq<Registration<O, H>>)
    ensures |r| <= |list|
    ensures forall i :: 0 <= i < |r| ==> r[i].owner != owner
  {
    if list == [] then []
    else if list[0].owner != owner then [list[0]] + WithoutOwner(list[1..], owner)
    else WithoutOwner(list[1..], owner)
  }

  /** An entry survives removal exactly when it was registered by another owner. */
  lemma {:induction false} WithoutOwnerKeepsExactly<O, H>(list: seq<Registration<O, H>>, owner: O, e: Registration<O, H>)
    ensures e in WithoutOwner(list, owner) <==> e in list && e.owner != owner
  {
    if list != [] {
      WithoutOwnerKeepsExactly(list[1..], owner, e);
    }
  }

  /** Filtering a concatenation filters each part: the survivors keep their relative order. */
  lemma {:induction false} WithoutOwnerAppend<O, H>(a: seq<Registration<O, H>>, b: seq<Registration<O, H>>, owner: O)
    ensures WithoutOwner(a + b, owner) == WithoutOwner(a, owner) + WithoutOwner(b, owner)
  {
    if a == [] {
      assert a + b == b;
    } else {
      assert (a + b)[0] == a[0] && (a + b)[1..] == a[1..] + b;
      WithoutOwnerAppend(a[1..], b, owner);
    }
  }

  /** A list that holds no entry of `owner` is left as it is. */
  lemma {:induction false} WithoutAbsentOwner<O, H>(list: seq<Registration<O, H>>, owner: O)
    requires forall i :: 0 <= i < |list| ==> list[i].owner != owner
    ensures WithoutOwner(list, owner) == list
  {
    if list != [] {
      WithoutAbsentOwner(list[1..], owner);
    }
  }

  /** Removing the same owner twice removes nothing more. */
  lemma WithoutOwnerIdempotent<O, H>(list: seq<Registration<O, H>>, owner: O)
    ensures WithoutOwner(WithoutOwner(list, owner), owner) == WithoutOwner(list, owner)
  {
    WithoutAbsentOwner(WithoutOwner(list, owner), owner);
  }

  /** Every key present holds at least one registration. */
  ghost predicate NoEmptyLists<K, O, H>(directory: map<K, seq<Registration<O, H>>>) {
    forall k :: k in directory ==> |directory[k]| > 0
  }

  /**
   * The directory after registering `reg` under `key`: the entry goes to the
   * end of the key's list, a new key gets a one-entry list, and every other
   * key keeps its list.
   */
  function Registered<K(==), O, H>(directory: map<K, seq<Registration<O, H>>>, key: K, reg: Registration<O, H>)
    : (r: map<K, seq<Registration<O, H>>>)
    ensures r.Keys == directory.Keys + {key}
    ensures r[key] == Lookup(directory, key) + [reg]
    ensures key !in directory ==> r[key] == [reg]
    ensures forall k :: k in directory && k != key ==> r[k] == directory[k]
    ensures NoEmptyLists(directory) ==> NoEmptyLists(r)
  {
    directory[key := Lookup(directory, key) + [reg]]
  }

  /**
   * The directory after removing `owner`'s registrations under `key`: the
   * key keeps the other owners' entries in order, or is deleted when none
   * remain; every other key keeps its list.
   */
  function Removed<K(==), O(==), H>(directory: map<K, seq<Registration<O, H>>>, key: K, owner: O)
    : (r: map<K, seq<Registration<O, H>>>)
    requires key in directory
    ensures |WithoutOwner(directory[key], owner)| > 0 ==> r.Keys == directory.Keys
    ensures |WithoutOwner(directory[key], owner)| == 0 ==> r.Keys == directory.Keys - {key}
    ensures key in r ==> r[key] == WithoutOwner(directory[key], owner)
    ensures forall k :: k in directory && k != key ==> r[k] == directory[k]
    ensures NoEmptyLists(directory) ==> NoEmptyLists(r)
  {
    var rest := WithoutOwner(directory[key], owner);
    if |rest| > 0 then directory[key := rest] else directory - {key}
  }

  /**
   * Registering a handler for an owner that has none under the key, then
   * removing that owner, gives back the directory it started from.
   */
  lemma RegisterThenRemove<K, O, H>(directory: map<K, seq<Registration<O, H>>>, key: K, reg: Registration<O, H>)
    requires NoEmptyLists(directory)
    requires forall i :: 0 <= i < |Lookup(directory, key)| ==> Lookup(directory, key)[i].owner != reg.owner
    ensures Removed(Registered(directory, key, reg), key, reg.owner) == directory
  {
    var list := Lookup(directory, key);
    WithoutOwnerAppend(list, [reg], reg.owner);
    WithoutAbsentOwner(list, reg.owner);
    assert WithoutOwner([reg], reg.owner) == [];
    var added := Registered(directory, key, reg);
    assert WithoutOwner(added[key], reg.owner) == list;
    var r := Removed(added, key, reg.owner);
    if key in directory {
      assert r.Keys == directory.Keys;
      assert r[key] == directory[key];
    } else {
      assert r.Keys == directory.Keys;
    }
  }

  /**
   * A second removal of the same owner under the same key either finds the
   * key deleted or leaves the directory as the first removal left it.
   */
  lemma RemoveTwice<K, O, H>(directory: map<K, seq<Registration<O, H>>>, key: K, owner: O)
    requires key in directory
    ensures var once := Removed(directory, key, owner);
            key in once ==> Removed(once, key, owner) == once
  {
    WithoutOwnerIdempotent(directory[key], owner);
  }

  /** The calls made for a handler list: each handler once, in list order, with the command. */
  function CallsFor<O, H, M>(handlers: seq<Registration<O, H>>, mode: Mode, command: M): (r: seq<HandlerCall<H, M>>)
    ensures |r| == |handlers|
  {
    if handlers == [] then []
    else [HandlerCall(mode, handlers[0].handler, command)] + CallsFor(handlers[1..], mode, command)
  }

  /** The handler at position `i` is called at position `i`. */
  lemma {:induction false} CallAt<O, H, M>(handlers: seq<Registration<O, H>>, mode: Mode, command: M, i: nat)
    requires i < |handlers|
    ensures CallsFor(handlers, mode, command)[i] == HandlerCall(mode, handlers[i].handler, command)
  {
    if i > 0 {
      CallAt(handlers[1..], mode, command, i - 1);
    }
  }

  /** Calling one more handler appends exactly its call. */
  lemma {:induction false} CallsForAppend<O, H, M>(handlers: seq<Registration<O, H>>, h: Registration<O, H>, mode: Mode, command: M)
    ensures CallsFor(handlers + [h], mode, command) == CallsFor(handlers, mode, command) + [HandlerCall(mode, h.handler, command)]
  {
    if handlers != [] {
      assert (handlers + [h])[1..] == handlers[1..] + [h];
      CallsForAppend(handlers[1..], h, mode, command);
    }
  }

  class Bus<K(==), O(==), H, M> {
    /** The handler directory. */
    var directory: map<K, seq<Registration<O, H>>>
    /** Every handler call made or queued so far, in order. */
    var calls: seq<HandlerCall<H, M>>

    /** No key is kept with an empty list. */
    ghost predicate Valid()
      reads this`directory
    {
      NoEmptyLists(directory)
    }

    constructor ()
      ensures Valid()
      ensures directory == map[] && calls == []
    {
      directory := map[];
      calls := [];
    }

    /**
     * Registers `handler` for `owner` under the command's key; a class that
     * is not a command throws ClassNotACommand and changes nothing.
     */
    method RegisterHandler(owner: O, handler: H, command: CommandClass<K>) returns (r: Outcome<BusError>)
      requires Valid()
      modifies this`directory
      ensures Valid()
      ensures !command.isCommand ==> r == Fail(ClassNotACommand) && directory == old(directory)
      ensures command.isCommand ==>
                r == Pass && directory == Registered(old(directory), command.key, Registration(owner, handler))
    {
      if !command.isCommand {
        return Fail(ClassNotACommand);
      }
      var handlers: seq<Registration<O, H>>;
      if command.key in directory {
        handlers := directory[command.key];
      } else {
        handlers := [];
      }
      handlers := handlers + [Registration(owner, handler)];
      directory := directory[command.key := handlers];
      r := Pass;
    }

    /**
     * Removes every registration of `owner` under the command's key,
     * deleting the key when none remain. A class that is not a command
     * throws ClassNotACommand, an unregistered key throws
     * CommandNotRegistered, and either way nothing changes.
     */
    method RemoveHandler(owner: O, command: CommandClass<K>) returns (r: Outcome<BusError>)
      requires Valid()
      modifies this`directory
      ensures Valid()
      ensures !command.isCommand ==> r == Fail(ClassNotACommand) && directory == old(directory)
      ensures command.isCommand && command.key !in old(directory) ==>
                r == Fail(CommandNotRegistered) && directory == old(directory)
      ensures command.isCommand && command.key in old(directory) ==>
                r == Pass && directory == Removed(old(directory), command.key, owner)
    {
      if !command.isCommand {
        return Fail(ClassNotACommand);
      }
      if command.key !in directory {
        return Fail(CommandNotRegistered);
      }
      var handlers := WithoutOwner(directory[command.key], owner);
      if |handlers| > 0 {
        directory := directory[command.key := handlers];
      } else {
        directory := directory - {command.key};
      }
      r := Pass;
    }

    /** Hands every handler registered under `key` to the performer, in order; an absent key queues nothing. */
    method SendCommand(key: K, command: M)
      modifies this`calls
      ensures calls == old(calls) + CallsFor(Lookup(directory, key), Queued, command)
    {
      Dispatch(key, command, Queued);
    }

    /** Calls every handler registered under `key`, in order; an absent key calls nothing. */
    method CallHandler(key: K, command: M)
      modifies this`calls
      ensures calls == old(calls) + CallsFor(Lookup(directory, key), Immediate, command)
    {
      Dispatch(key, command, Immediate);
    }

    /** The loop `SendCommand` and `CallHandler` share. */
    method Dispatch(key: K, command: M, mode: Mode)
      modifies this`calls
      ensures calls == old(calls) + CallsFor(Lookup(directory, key), mode, command)
    {
      if key in directory {
        var handlers := directory[key];
        ghost var start := calls;
        for i := 0 to |handlers|
          invariant calls == start + CallsFor(handlers[..i], mode, command)
        {
          assert handlers[..i + 1] == handlers[..i] + [handlers[i]];
          CallsForAppend(handlers[..i], handlers[i], mode, command);
          calls := calls + [HandlerCall(mode, handlers[i].handler, command)];
        }
        assert handlers[..|handlers|] == handlers;
      }
    }
  }

  /** The commands and owners of an example bus. */
  datatype Command = Save | Quit
  datatype Owner = Editor | Window

  /**
   * An example run: the editor registers handler 1 and the window handler 2
   * for `Save`; calling `Save` runs 1 and then 2, and calling `Quit`, which
   * has no handlers, runs nothing.
   */
  method CallOrderRun() returns (calls: seq<HandlerCall<nat, Command>>)
    ensures calls == [HandlerCall(Immediate, 1, Save), HandlerCall(Immediate, 2, Save)]
  {
    var bus := new Bus<Command, Owner, nat, Command>();
    var r := bus.RegisterHandler(Editor, 1, CommandClass(Save, true));
    assert bus.directory.Keys == {Save} && bus.directory[Save] == [Registration(Editor, 1)];
    r := bus.RegisterHandler(Window, 2, CommandClass(Save, true));
    assert bus.directory.Keys == {Save};
    assert bus.directory[Save] == [Registration(Editor, 1), Registration(Window, 2)];
    bus.CallHandler(Save, Save);
    bus.CallHandler(Quit, Quit);
    calls := bus.calls;
  }

  /**
   * An example run of removal: with the editor's and the window's handlers
   * registered for `Save`, removing the editor keeps the window's entry;
   * removing the window deletes the key, so removing it again throws
   * CommandNotRegistered. A class that is not a command is refused.
   */
  method RemovalRun() returns (kept: seq<Registration<Owner, nat>>, last: Outcome<BusError>, refused: Outcome<BusError>)
    ensures kept == [Registration(Window, 2)]
    ensures last == Fail(CommandNotRegistered)
    ensures refused == Fail(ClassNotACommand)
  {
    var bus := new Bus<Command, Owner, nat, Command>();
    var r := bus.RegisterHandler(Editor, 1, CommandClass(Save, true));
    assert bus.directory.Keys == {Save} && bus.directory[Save] == [Registration(Editor, 1)];
    r := bus.RegisterHandler(Window, 2, CommandClass(Save, true));
    assert bus.directory.Keys == {Save};
    assert bus.directory[Save] == [Registration(Editor, 1), Registration(Window, 2)];
    assert WithoutOwner([Registration(Editor, 1), Registration(Window, 2)], Editor) == [Registration(Window, 2)];
    r := bus.RemoveHandler(Editor, CommandClass(Save, true));
    kept := bus.directory[Save];
    assert WithoutOwner([Registration(Window, 2)], Window) == [];
    r := bus.RemoveHandler(Window, CommandClass(Save, true));
    last := bus.RemoveHandler(Window, CommandClass(Save, true));
    refused := bus.RegisterHandler(Editor, 3, CommandClass(Quit, false));
  }
}
