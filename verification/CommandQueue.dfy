/** The bounded command ring of baresip/shim/command_queue.c. */
module CommandQueue {
  /** What a locked operation sees of a ring: a bounded FIFO with an admission gate. */
  datatype Fifo<T> = Fifo(contents: seq<T>, capacity: nat, accepting: bool)

  datatype Admission = Queued | Stopped | Full

  function Admit<T>(q: Fifo<T>): Admission {
    if !q.accepting then Stopped else if |q.contents| == q.capacity then Full else Queued
  }

  function Pushed<T>(q: Fifo<T>, x: T): Fifo<T> {
    if Admit(q) == Queued then q.(contents := q.contents + [x]) else q
  }

  function Popped<T>(q: Fifo<T>): Fifo<T> {
    if q.contents == [] then q else q.(contents := q.contents[1..])
  }

  lemma WrapOnce(x: nat, m: nat)
    requires 0 < m && x < 2 * m
    ensures x % m == if x < m then x else x - m
  {
    if x >= m {
      assert x == m * 1 + (x - m);
    }
  }

  class Ring<T(0)> {
    const items: array<T>
    var head: nat
    var count: nat
    var accepting: bool

    ghost predicate Valid()
      reads this
    {
      0 < items.Length && head < items.Length && count <= items.Length
    }

    /** Slot of the i-th oldest element. */
    ghost function Slot(i: nat): nat
      reads this
      requires Valid() && i < items.Length
      ensures Slot(i) < items.Length
    {
      if head + i < items.Length then head + i else head + i - items.Length
    }

    ghost function View(): Fifo<T>
      reads this, items
      requires Valid()
    {
      Fifo(seq(count, i requires 0 <= i < count reads this, items requires Valid() => items[Slot(i)]),
           items.Length, accepting)
    }

    constructor (capacity: nat)
      requires capacity > 0
      ensures Valid() && fresh(items) && View() == Fifo([], capacity, true)
    {
      items := new T[capacity];
      head, count, accepting := 0, 0, true;
    }

    method Stop()
      requires Valid()
      modifies this
      ensures Valid() && View() == old(View()).(accepting := false)
    {
      accepting := false;
      assert View().contents == old(View().contents);
    }

    method Push(command: T) returns (err: Admission)
      requires Valid()
      modifies this, items
      ensures Valid() && err == Admit(old(View())) && View() == Pushed(old(View()), command)
      // refused for being stopped before it is refused for being full
      ensures err == if !old(accepting) then Stopped else if old(count) == items.Length then Full else Queued
      ensures err == Queued ==> View().contents == old(View()).contents + [command]
      ensures err != Queued ==> View().contents == old(View()).contents
      ensures accepting == old(accepting) && count == |View().contents|
    {
      if !accepting {
        err := Stopped;
      } else if count == items.Length {
        err := Full;
      } else {
        err := Queued;
        WrapOnce(head + count, items.Length);
        var index := (head + count) % items.Length;
        items[index] := command;
        count := count + 1;
        assert View().contents == old(View().contents) + [command];
      }
    }

    method Pop() returns (found: bool, command: T)
      requires Valid()
      modifies this
      ensures Valid() && found == (old(View()).contents != []) && View() == Popped(old(View()))
      ensures found ==> old(View()).contents == [command] + View().contents
      ensures !found ==> View().contents == []
      ensures accepting == old(accepting)
    {
      found, command := false, items[head];
      if count > 0 {
        command := items[head];
        WrapOnce(head + 1, items.Length);
        head := (head + 1) % items.Length;
        count := count - 1;
        found := true;
        assert View().contents == old(View().contents)[1..];
      }
    }

    method Pending() returns (pending: bool)
      requires Valid()
      ensures pending <==> View().contents != []
    {
      pending := count != 0;
    }

    /** At most `limit` commands reach the handler, oldest first. */
    method Dispatch(limit: nat) returns (handled: seq<T>)
      requires Valid()
      modifies this
      ensures |handled| == if limit < |old(View()).contents| then limit else |old(View()).contents|
      ensures Valid() && View() == old(View()).(contents := old(View()).contents[|handled|..])
      ensures handled == old(View()).contents[..|handled|]
    {
      hide View;
      handled := [];
      ghost var before := View();
      assert before.contents[0..] == before.contents;
      while |handled| < limit
        invariant Valid() && |handled| <= limit && |handled| <= |before.contents|
        invariant View() == before.(contents := before.contents[|handled|..])
        invariant handled == before.contents[..|handled|]
        decreases limit - |handled|
      {
        var found, command := Pop();
        if !found {
          break;
        }
        assert before.contents[|handled|..][1..] == before.contents[|handled| + 1..];
        assert handled + [command] == before.contents[..|handled| + 1];
        handled := handled + [command];
      }
    }
  }
}
