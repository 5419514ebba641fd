/**
 * The name stack of name_stack.c: the chain of scope names, root first,
 * from which the expansion builds dotted hierarchical vertex names such as
 * `network.host[2].eth`.
 *
 * The linked list of the source becomes the sequence `entries` of class
 * Stack, root at index 0, tail last.  name_stack_name and get_full_name
 * compute fresh strings and are the functions Join and FullName.
 */
module NameStack {
  import opened Basics

  /** One scope level: `name`, or `name[index]` when index >= 0. */
  function Segment(name: string, index: int): string
  {
    if index < 0 then name else name + "[" + Decimal(index) + "]"
  }

  /** name_stack_name: every entry from root to tail, separated by '.'. */
  function Join(es: seq<string>): string
    requires |es| >= 1
  {
    if |es| == 1 then es[0] else es[0] + "." + Join(es[1..])
  }

  /** The byte count name_stack_name allocates: strlen + 1 per entry. */
  function NameBufferSize(es: seq<string>): nat
  {
    if |es| == 0 then 0 else |es[0]| + 1 + NameBufferSize(es[1..])
  }

  /** get_full_name: the stack's name, '.', the name, then `[index]` unless index is -1. */
  function FullName(es: seq<string>, name: string, index: int): string
    requires |es| >= 1
  {
    Join(es) + "." + name + (if index != -1 then "[" + Decimal(index) + "]" else "")
  }

  /** Entering one more level extends the joined name by '.' and that level. */
  lemma {:induction false} JoinSnoc(es: seq<string>, x: string)
    requires |es| >= 1
    ensures Join(es + [x]) == Join(es) + "." + x
    decreases |es|
  {
    if |es| == 1 {
      assert es + [x] == [es[0], x];
      assert [es[0], x][1..] == [x];
    } else {
      assert (es + [x])[1..] == es[1..] + [x];
      JoinSnoc(es[1..], x);
    }
  }

  /** The buffer name_stack_name sizes in its first loop holds the joined name and its NUL exactly. */
  lemma {:induction false} NameFitsBuffer(es: seq<string>)
    requires |es| >= 1
    ensures |Join(es)| + 1 == NameBufferSize(es)
    decreases |es|
  {
    if |es| > 1 {
      NameFitsBuffer(es[1..]);
    } else {
      assert es[1..] == [];
    }
  }

  /**
   * get_full_name agrees with entering a level and reading the stack's
   * name, for index -1 and for every index >= 0.  (For an index below -1
   * the two differ: get_full_name prints `[index]`, name_stack_enter does not.)
   */
  lemma FullNameIsChildName(es: seq<string>, name: string, index: int)
    requires |es| >= 1 && index >= -1
    ensures FullName(es, name, index) == Join(es + [Segment(name, index)])
  {
    JoinSnoc(es, Segment(name, index));
  }

  /** The stack after name_stack_leave: the tail removed, unless only the root remains. */
  function Popped(es: seq<string>): (r: seq<string>)
    requires |es| >= 1
  {
    if |es| == 1 then es else es[..|es| - 1]
  }

  /** Leaving undoes entering, whatever the level. */
  lemma LeaveUndoesEnter(es: seq<string>, name: string, index: int)
    requires |es| >= 1
    ensures Popped(es + [Segment(name, index)]) == es
  {
    assert (es + [Segment(name, index)])[..|es|] == es;
  }

  /** name_stack_t: a chain of at least one scope name, root first. */
  class Stack {
    var entries: seq<string>

    ghost predicate Valid()
      reads this
    {
      |entries| >= 1
    }

    /** name_stack_create: a one-entry stack holding a copy of name. */
    constructor (name: string)
      ensures Valid() && entries == [name]
    {
      entries := [name];
    }

    /**
     * name_stack_enter: appends `name`, or `name[index]` when index >= 0,
     * at the tail; earlier entries are unchanged.  For index < 0 the
     * source writes the name over the root instead (see EnterAsWritten).
     */
    method Enter(name: string, index: int)
      requires Valid()
      modifies this
      ensures Valid()
      ensures entries == old(entries) + [Segment(name, index)]
      ensures Join(entries) == Join(old(entries)) + "." + Segment(name, index)
    {
      var segment: string;
      if index < 0 {
        segment := name;
      } else {
        segment := name + "[" + Decimal(index) + "]";
      }
      JoinSnoc(entries, segment);
      entries := entries + [segment];
    }

    /** name_stack_leave: drops the tail entry; a no-op on the bare root. */
    method Leave()
      requires Valid()
      modifies this
      ensures Valid()
      ensures entries == Popped(old(entries))
    {
      if |entries| == 1 {
        return;
      }
      entries := entries[..|entries| - 1];
    }

    /** name_stack_name: walks root to tail, writing each entry followed by '.', and the tail alone. */
    method Name() returns (r: string)
      requires Valid()
      ensures r == Join(entries)
    {
      var es := entries;
      r := "";
      var k := 0;
      while k < |es| - 1
        invariant 0 <= k <= |es| - 1
        invariant r + Join(es[k..]) == Join(es)
      {
        assert es[k..][1..] == es[k + 1..];
        r := r + es[k] + ".";
        k := k + 1;
      }
      assert es[k..] == [es[k]];
      r := r + es[k];
    }

    /** get_full_name: the stack's name, '.', the name, and `[index]` unless index is -1. */
    method ChildName(name: string, index: int) returns (r: string)
      requires Valid()
      ensures r == FullName(entries, name, index)
    {
      var scope := Name();
      r := scope + "." + name;
      if index != -1 {
        r := r + "[" + Decimal(index) + "]";
      }
    }
  }

  // name_stack_enter as written: with index < 0 it copies the name into the
  // root entry (`s->name`) and leaves the new tail's name unset (None).

  function EnterAsWritten(es: seq<Option<string>>, name: string, index: int): seq<Option<string>>
    requires |es| >= 1
  {
    if index < 0 then es[0 := Some(name)] + [None] else es + [Some(Segment(name, index))]
  }

  function PoppedAsWritten(es: seq<Option<string>>): seq<Option<string>>
    requires |es| >= 1
  {
    if |es| == 1 then es else es[..|es| - 1]
  }

  /**
   * Entering an unindexed level and leaving it again does not restore the
   * stack as written: the root name is lost for good, and while the level
   * is entered its own name is unset.
   */
  lemma EnterLeaveLosesRootAsWritten()
    ensures var es := [Some("network")];
      EnterAsWritten(es, "sw", -1) == [Some("sw"), None] &&
      PoppedAsWritten(EnterAsWritten(es, "sw", -1)) == [Some("sw")] &&
      PoppedAsWritten(EnterAsWritten(es, "sw", -1)) != es
  {
    var es := [Some("network")];
    assert EnterAsWritten(es, "sw", -1)[..1] == [Some("sw")];
  }
}
