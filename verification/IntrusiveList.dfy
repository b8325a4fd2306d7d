/**
The intrusive lists of detail/intrusive.hpp. An entry carries its own links, and the
object that embeds it is its payload. Each list keeps a ghost sequence of its entries;
`Valid` ties every link field to that sequence.
 */
module IntrusiveList {

  class Entry<P> {
    var next: Entry?<P>
    var prev: Entry?<P>
    var payload: P

    constructor (payload: P)
      ensures Detached() && this.payload == payload
    {
      this.payload := payload;
      next, prev := null, null;
    }

    ghost predicate Detached()
      reads this
    {
      next == null && prev == null
    }

    ghost function Neighbours(): set<Entry<P>>
      reads this
    {
      (if next == null then {} else {next}) + (if prev == null then {} else {prev})
    }
  }

  ghost predicate Distinct<T>(s: seq<T>) {
    forall i, j :: 0 <= i < j < |s| ==> s[i] != s[j]
  }

  function RemoveAt<T>(s: seq<T>, k: nat): seq<T>
    requires k < |s|
  {
    s[..k] + s[k + 1..]
  }

  class DoubleLinkList<P> {
    var head: Entry?<P>
    var tail: Entry?<P>
    ghost var entries: seq<Entry<P>>

    /** Head, tail and the links of the entries describe the sequence `s`. */
    ghost predicate Describes(s: seq<Entry<P>>)
      reads this`head, this`tail, s`next, s`prev
    {
      && Distinct(s)
      && (s == [] ==> head == null && tail == null)
      && (s != [] ==> head == s[0] && tail == s[|s| - 1])
      && (forall i {:trigger s[i].next} :: 0 <= i < |s| ==> s[i].next == if i + 1 < |s| then s[i + 1] else null)
      && (forall i {:trigger s[i].prev} :: 0 <= i < |s| ==> s[i].prev == if 0 < i then s[i - 1] else null)
    }

    ghost predicate Valid()
      reads this, entries
    {
      Describes(entries)
    }

    constructor ()
      ensures Valid() && entries == []
    {
      head, tail, entries := null, null, [];
    }

    /** The entry that PopFront would take, as a frame. */
    ghost function First(): set<Entry<P>>
      reads this
    {
      if entries == [] then {} else {entries[0]}
    }

    /** Move assignment: takes all entries of `other` into this empty list; from itself, nothing. */
    method MoveFrom(other: DoubleLinkList<P>)
      requires Valid() && other.Valid() && (other == this || entries == [])
      modifies this, other
      ensures Valid() && other.Valid() && entries == old(other.entries)
      ensures if other == this then unchanged(this) else other.entries == []
    {
      if other != this {
        head, tail, entries := other.head, other.tail, other.entries;
        other.head, other.tail, other.entries := null, null, [];
      }
    }

    method Empty() returns (b: bool)
      requires Valid()
      ensures b <==> entries == []
    {
      b := head == null;
    }

    method PushBack(e: Entry<P>)
      requires Valid() && e !in entries && e.Detached()
      modifies this, e`next, e`prev, entries`next, entries`prev
      ensures Valid() && entries == old(entries) + [e]
    {
      e.next := null;
      e.prev := tail;
      if head == null {
        head := e;
        tail := e;
      } else {
        tail.next := e;
        tail := e;
      }
      entries := entries + [e];
    }

    /** Unlinks and returns the head, or returns null from an empty list. */
    method PopFront() returns (e: Entry?<P>)
      requires Valid()
      modifies this, entries`next, entries`prev
      ensures Valid()
      ensures old(entries) == [] ==> e == null && entries == []
      ensures old(entries) != [] ==>
                e == old(entries)[0] && entries == old(entries)[1..] && e !in entries && e.Detached()
    {
      if head == null {
        return null;
      }
      e := head;
      head := head.next;
      if head != null {
        head.prev := null;
      } else {
        tail := null;
      }
      e.next := null;
      e.prev := null;
      entries := entries[1..];
    }

    /** The pointer surgery of remove: neighbours, or the ends of this list where there is none. */
    method Relink(e: Entry<P>)
      requires e.prev != e && e.next != e && (e.prev != null ==> e.prev != e.next)
      modifies this`head, this`tail, e`next, e`prev, e.Neighbours()`next, e.Neighbours()`prev
      ensures e.Detached()
      ensures if old(e.prev) == null then head == old(e.next)
              else head == old(head) && old(e.prev).next == old(e.next) && old(e.prev).prev == old(e.prev.prev)
      ensures if old(e.next) == null then tail == old(e.prev)
              else tail == old(tail) && old(e.next).prev == old(e.prev) && old(e.next).next == old(e.next.next)
    {
      if e.prev != null {
        e.prev.next := e.next;
      } else {
        head := e.next;
      }
      if e.next != null {
        e.next.prev := e.prev;
      } else {
        tail := e.prev;
      }
      e.next := null;
      e.prev := null;
    }

    /** The links of the entry at position `k`. */
    ghost static predicate Placed(s: seq<Entry<P>>, k: nat)
      requires k < |s|
      reads s[k]
    {
      && s[k].prev == (if 0 < k then s[k - 1] else null)
      && s[k].next == if k + 1 < |s| then s[k + 1] else null
    }

    /** The links of `s` skip the entry at position `k`. */
    ghost predicate Skips(s: seq<Entry<P>>, k: nat)
      requires k < |s|
      reads this, s
    {
      && Distinct(s)
      && head == (if k > 0 then s[0] else if |s| > 1 then s[1] else null)
      && tail == (if k + 1 < |s| then s[|s| - 1] else if k > 0 then s[k - 1] else null)
      && (forall i {:trigger s[i].next} :: 0 <= i < |s| && i != k ==>
            s[i].next == if i + 1 == k then (if k + 1 < |s| then s[k + 1] else null)
                         else if i + 1 < |s| then s[i + 1] else null)
      && (forall i {:trigger s[i].prev} :: 0 <= i < |s| && i != k ==>
            s[i].prev == if i == k + 1 then (if k > 0 then s[k - 1] else null)
                         else if 0 < i then s[i - 1] else null)
    }

    lemma Rejoined(s: seq<Entry<P>>, k: nat)
      requires k < |s| && Skips(s, k)
      ensures Describes(RemoveAt(s, k)) && s[k] !in RemoveAt(s, k)
    {
      var t := RemoveAt(s, k);
      assert forall i :: 0 <= i < |t| ==> t[i] == s[if i < k then i else i + 1];
    }

    /** Takes the entry at position `k` out of the chain of links. */
    method Unlink(e: Entry<P>, ghost k: nat)
      requires Valid() && k < |entries| && entries[k] == e
      modifies this, entries`next, entries`prev
      ensures Valid() && entries == RemoveAt(old(entries), k) && e !in entries && e.Detached()
    {
      ghost var was := entries;
      assert Placed(was, k);
      Relink(e);
      entries := RemoveAt(was, k);
      Rejoined(was, k);
    }

    /**
     Unlinks `e` if it is in this list. An entry with null links that is not the head
     belongs to no list (or is alone in another one): the answer is then false and
     nothing changes.
     */
    method Remove(e: Entry<P>) returns (ok: bool, ghost k: nat)
      requires Valid() && (e in entries || e.Detached())
      modifies this, e`next, e`prev, entries`next, entries`prev
      ensures Valid()
      ensures ok <==> e in old(entries)
      ensures ok ==> k < |old(entries)| && old(entries)[k] == e && entries == RemoveAt(old(entries), k)
      ensures ok ==> e !in entries && e.Detached()
      ensures !ok ==> unchanged(this) && unchanged(e) && unchanged(entries)
    {
      k := 0;
      if e.prev == null && e.next == null && head != e {
        return false, k;
      }
      k :| 0 <= k < |entries| && entries[k] == e;
      Unlink(e, k);
      ok := true;
    }

    /**
     The same call for an entry that is linked in another list: remove cannot tell. It does what was
     asked exactly when the entry is alone there (nothing happens) or has neighbours on both sides (it
     leaves the other list). At an end of a longer list it rewrites the ends of this list instead, and
     from then on no two sequences are described by the two lists. That is a build without assertions:
     with them, remove stops the program at an end of a longer list.
     */
    method RemoveElsewhere(e: Entry<P>, other: DoubleLinkList<P>, ghost k: nat) returns (ok: bool)
      requires Valid() && other.Valid() && other != this && k < |other.entries| && other.entries[k] == e
      requires forall i, j :: 0 <= i < |entries| && 0 <= j < |other.entries| ==> entries[i] != other.entries[j]
      modifies this`head, this`tail, other`entries, other.entries`next, other.entries`prev
      ensures var m := |old(other.entries)|;
              && (ok <==> m > 1)
              && (m == 1 ==> Valid() && other.Valid() && other.entries == old(other.entries))
              && (0 < k < m - 1 ==> && Valid() && other.Valid() && other.entries == RemoveAt(old(other.entries), k)
                                    && e !in other.entries && e.Detached())
              && ((exists s, t :: Describes(s) && other.Describes(t)) <==> m == 1 || 0 < k < m - 1)
      ensures k == 0 && ok ==> other.head == e && head == old(other.entries)[1]
      ensures 0 < k == |old(other.entries)| - 1 ==> other.tail == e && tail == old(other.entries)[k - 1]
    {
      ghost var was := other.entries;
      ghost var m := |was|;
      assert Placed(was, k);
      if e.prev == null && e.next == null && head != e {
        assert Describes(entries) && other.Describes(other.entries);
        return false;
      }
      Relink(e);
      if 0 < k < m - 1 {
        other.entries := RemoveAt(was, k);
        other.Rejoined(was, k);
        assert Describes(entries) && other.Describes(other.entries);
      } else {
        EndIsTorn(other, e);
      }
      ok := true;
    }

    /** A detached entry at only one end of a list: no sequence is described. */
    static lemma EndIsTorn(list: DoubleLinkList<P>, e: Entry<P>)
      requires e.Detached() && (list.head == e) != (list.tail == e)
      ensures forall s: seq<Entry<P>> :: !list.Describes(s)
    {
    }
  }

  class SingleLinkList<P> {
    var head: Entry?<P>
    var tail: Entry?<P>
    ghost var entries: seq<Entry<P>>

    ghost predicate Valid()
      reads this, entries
    {
      && Distinct(entries)
      && (entries == [] ==> head == null && tail == null)
      && (entries != [] ==> head == entries[0] && tail == entries[|entries| - 1])
      && (forall i {:trigger entries[i].next} :: 0 <= i < |entries| ==>
            entries[i].next == if i + 1 < |entries| then entries[i + 1] else null)
    }

    constructor ()
      ensures Valid() && entries == []
    {
      head, tail, entries := null, null, [];
    }

    method PushBack(e: Entry<P>)
      requires Valid() && e !in entries && e.next == null
      modifies this, entries`next
      ensures Valid() && entries == old(entries) + [e]
    {
      if head == null {
        head := e;
        tail := e;
      } else {
        tail.next := e;
        tail := e;
      }
      entries := entries + [e];
    }

    /** Appends all of `other` in constant time and leaves `other` empty. */
    method Splice(other: SingleLinkList<P>)
      requires Valid() && other.Valid() && other != this
      requires forall i, j :: 0 <= i < |entries| && 0 <= j < |other.entries| ==> entries[i] != other.entries[j]
      modifies this, other, entries`next
      ensures Valid() && other.Valid()
      ensures entries == old(entries) + old(other.entries) && other.entries == []
    {
      if other.head == null {
        return;
      }
      if head == null {
        head := other.head;
        tail := other.tail;
      } else {
        tail.next := other.head;
        tail := other.tail;
      }
      entries := entries + other.entries;
      other.head := null;
      other.tail := null;
      other.entries := [];
    }

    method PopFront() returns (e: Entry?<P>)
      requires Valid()
      modifies this, entries`next
      ensures Valid()
      ensures old(entries) == [] ==> e == null && entries == []
      ensures old(entries) != [] ==>
                e == old(entries)[0] && entries == old(entries)[1..] && e !in entries && e.next == null
    {
      if head == null {
        return null;
      }
      e := head;
      head := head.next;
      if head == null {
        tail := null;
      }
      e.next := null;
      entries := entries[1..];
    }
  }
}
