/** The queue of delayed messages: singly linked entries, the head pointing at the newest and the
  * tail at the oldest. */
module MsgQueue {
  import opened Basics
  import opened DList
  import opened Messages

  class Entry {
    var msg: NetMsg
    var next: Entry?

    constructor (m: NetMsg)
      ensures msg == m && next == null
    {
      msg, next := m, null;
    }
  }

  class MsgQueue {
    var head: Entry?
    var tail: Entry?
    ghost var entries: seq<Entry>
    ghost var cells: set<Entry>

    /** From tail to head the entries are linked in the order in which they were pushed. */
    ghost predicate Valid()
      reads this, entries, cells
    {
      && cells == Elements(entries)
      && (entries == [] ==> head == null && tail == null)
      && (entries != [] ==> tail == entries[0] && head == entries[|entries| - 1] && head.next == null)
      && (forall i {:trigger entries[i].next} :: 0 <= i < |entries| - 1 ==> entries[i].next == entries[i + 1])
      && (forall i, j :: 0 <= i < j < |entries| ==> entries[i] != entries[j])
    }

    /** The queued messages, oldest first. */
    ghost function Contents(): (r: seq<NetMsg>)
      reads this, entries
      ensures |r| == |entries| && forall i :: 0 <= i < |r| ==> r[i] == entries[i].msg
    {
      seq(|entries|, i requires 0 <= i < |entries| reads this, entries => entries[i].msg)
    }

    /** msgq_new. */
    constructor ()
      ensures Valid() && Contents() == [] && cells == {}
    {
      head, tail, entries, cells := null, null, [], {};
    }

    lemma HeadInside()
      requires Valid()
      ensures forall e :: e in entries <==> e in cells
      ensures head != null ==> head in cells
    {
    }

    /** msgq_push. */
    method Push(nmsg: NetMsg)
      requires Valid()
      modifies this, cells
      ensures Valid() && Contents() == old(Contents()) + [nmsg]
      ensures fresh(cells - old(cells))
    {
      hide Elements;
      HeadInside();
      var me := new Entry(nmsg);
      if head != null {
        head.next := me;
        head := me;
      } else {
        tail, head := me, me;
      }
      ElementsGrow(entries, me);
      entries, cells := entries + [me], cells + {me};
      assert Contents() == old(Contents()) + [nmsg];
    }

    /** msgq_pop: the oldest message, or None when the queue is empty. */
    method Pop() returns (nmsg: Option<NetMsg>)
      requires Valid()
      modifies this
      ensures Valid()
      ensures if old(Contents()) == [] then nmsg == None && Contents() == []
              else nmsg == Some(old(Contents())[0]) && Contents() == old(Contents())[1..]
      ensures cells <= old(cells)
    {
      hide Elements;
      if head == null {
        assert entries == [];
        return None;
      }
      var me := tail;
      if tail == head {
        assert |entries| == 1;
        tail, head := null, null;
      } else {
        tail := tail.next;
      }
      ElementsShrink(entries, 0);
      assert RemoveAt(entries, 0) == entries[1..];
      entries, cells := entries[1..], cells - {me};
      nmsg := Some(me.msg);
      assert Contents() == old(Contents())[1..];
    }

    /** msgq_empty. */
    method Empty() returns (empty: bool)
      requires Valid()
      ensures empty <==> Contents() == []
    {
      empty := tail == null;
    }
  }
}
