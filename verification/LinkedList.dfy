/**
  The singly linked list of lib/glacier/container/linked_list.h, which holds pending messages,
  hash map buckets and free pages.
 */
module LinkedList {

  class ListItem<T> {
    var item: T
    var next: ListItem?<T>

    constructor (item: T, next: ListItem?<T>)
      ensures this.item == item && this.next == next
    {
      this.item, this.next := item, next;
    }
  }

  ghost function Nth<T>(s: seq<ListItem<T>>, i: int): ListItem?<T> { if 0 <= i < |s| then s[i] else null }

  ghost predicate Linked<T>(s: seq<ListItem<T>>, i: int)
    requires 0 <= i < |s|
    reads s
  {
    s[i].next == Nth(s, i + 1)
  }

  /** The sequence without the first occurrence of x. */
  function RemoveFirst<T(==)>(s: seq<T>, x: T): seq<T> {
    if s == [] then [] else if s[0] == x then s[1..] else [s[0]] + RemoveFirst(s[1..], x)
  }

  lemma {:induction false} RemoveFirstAt<T>(s: seq<T>, x: T, i: nat)
    requires i < |s| && s[i] == x && x !in s[..i]
    ensures RemoveFirst(s, x) == s[..i] + s[i + 1..]
  {
    if i > 0 {
      assert s[1..][..i - 1] == s[1..i] && x == s[1..][i - 1];
      assert s[0] == s[..i][0];
      RemoveFirstAt(s[1..], x, i - 1);
      assert [s[0]] + (s[1..][..i - 1] + s[1..][i..]) == s[..i] + s[i + 1..];
    }
  }

  lemma {:induction false} RemoveFirstNone<T>(s: seq<T>, x: T)
    requires x !in s
    ensures RemoveFirst(s, x) == s
  {
    if s != [] { RemoveFirstNone(s[1..], x); }
  }

  class LinkedList<T(==)> {
    var size: nat
    var front: ListItem?<T>
    ghost var cells: seq<ListItem<T>>

    ghost predicate Valid()
      reads this, cells
    {
      && size == |cells| && front == Nth(cells, 0)
      && (forall i, j :: 0 <= i < j < |cells| ==> cells[i] != cells[j])
      && forall i {:trigger Linked(cells, i)} :: 0 <= i < |cells| ==> Linked(cells, i)
    }

    ghost function Items(): (r: seq<T>)
      reads this, cells
      ensures |r| == |cells| && forall i :: 0 <= i < |r| ==> r[i] == cells[i].item
    {
      seq(|cells|, i requires 0 <= i < |cells| reads this, cells => cells[i].item)
    }

    constructor ()
      ensures Valid() && Items() == []
    {
      size, front, cells := 0, null, [];
    }

    method PushFront(item: T)
      requires Valid()
      modifies this
      ensures Valid() && Items() == [item] + old(Items()) && |cells| > 0 && fresh(cells[0]) && cells[1..] == old(cells)
    {
      var cell := new ListItem(item, front);
      front := cell;
      size := size + 1;
      cells := [cell] + cells;
      forall i | 0 <= i < |cells| ensures Linked(cells, i) {
        if i > 0 { assert old(Linked(cells, i - 1)); }
      }
    }

    method PushBack(item: T)
      requires Valid()
      modifies this, cells
      ensures Valid() && Items() == old(Items()) + [item]
    {
      var cell := new ListItem(item, null);
      size := size + 1;
      ghost var before := cells;
      cells := cells + [cell];
      if front == null {
        front := cell;
        return;
      }
      var last := front;
      ghost var i := 0;
      assert Linked(before, 0);
      while last.next != null
        invariant 0 <= i < |before| && last == before[i]
                  && (forall j {:trigger Linked(before, j)} :: 0 <= j < |before| ==> Linked(before, j))
        invariant forall j :: 0 <= j < |before| ==> before[j].item == old(before[j].item)
        decreases |before| - i
      {
        assert Linked(before, i);
        last := last.next;
        i := i + 1;
      }
      assert Linked(before, i);
      last.next := cell;
      forall j | 0 <= j < |cells| ensures Linked(cells, j) {
        if j < |before| { assert old(Linked(cells, j)); }
      }
    }

    method PopFront() returns (r: T)
      requires Valid() && size > 0
      modifies this
      ensures Valid() && [r] + Items() == old(Items()) && cells == old(cells)[1..]
    {
      assert Linked(cells, 0);
      size := size - 1;
      r := front.item;
      front := front.next;
      cells := cells[1..];
      forall i | 0 <= i < |cells| ensures Linked(cells, i) {
        assert old(Linked(cells, i + 1));
      }
    }

    /** Removes the first item equal to this one, if there is one; the list must not be empty. */
    method Remove(item: T)
      requires Valid() && size > 0
      modifies this, cells
      ensures Valid() && Items() == RemoveFirst(old(Items()), item)
    {
      ghost var items := Items();
      if front.item == item {
        var r := PopFront();
        assert ([r] + Items())[1..] == Items();
        return;
      }
      var iter := front;
      ghost var i := 0;
      while iter != null
        invariant 0 <= i <= |cells| && iter == Nth(cells, i) && Valid() && cells == old(cells) && Items() == items
        invariant item !in items[..i] && (i < |items| ==> items[i] != item)
        decreases |cells| - i
      {
        assert Linked(cells, i);
        if iter.next != null && iter.next.item == item {
          assert Linked(cells, i + 1);
          assert items[..i + 1] == items[..i] + [items[i]];
          RemoveFirstAt(items, item, i + 1);
          Unlink(iter, i);
          return;
        }
        assert items[..i + 1] == items[..i] + [items[i]];
        iter := iter.next;
        i := i + 1;
      }
      assert items[..i] == items;
      RemoveFirstNone(items, item);
    }

    // Skips the cell after cell i.
    method Unlink(cell: ListItem<T>, ghost i: nat)
      requires Valid() && i + 1 < |cells| && cells[i] == cell && cell.next == cells[i + 1]
      modifies this, cell
      ensures Valid() && Items() == old(Items())[..i + 1] + old(Items())[i + 2..]
    {
      assert Linked(cells, i + 1);
      cell.next := cell.next.next;
      size := size - 1;
      ghost var before := cells;
      cells := cells[..i + 1] + cells[i + 2..];
      forall j | 0 <= j < |cells| ensures Linked(cells, j) {
        assert old(Linked(cells, if j <= i then j else j + 1));
      }
    }
  }
}
