/** queue.c: despite its name, a linked stack. */
module JobStack {
  import opened Optional

  class Elem<T> {
    const prev: Elem?<T>
    const data: T

    constructor (prev: Elem?<T>, data: T)
      ensures this.prev == prev && this.data == data
    {
      this.prev, this.data := prev, data;
    }
  }

  class Queue<T> {
    var front: Elem?<T>
    var count: int
    ghost var jobs: seq<T>    // top first

    ghost predicate Valid()
      reads this
    {
      count == |jobs| && Stacked(front, jobs)
    }

    constructor ()
      ensures Valid() && jobs == []
    {
      front, count, jobs := null, 0, [];
    }

    method Front() returns (data: Option<T>)
      requires Valid()
      ensures data == if jobs == [] then None else Some(jobs[0])
    {
      if count == 0 { return None; }
      data := Some(front.data);
    }

    method Pop()
      requires Valid()
      modifies this
      ensures Valid() && jobs == if old(jobs) == [] then [] else old(jobs)[1..]
    {
      if count == 0 { return; }
      front := front.prev;
      count := count - 1;
      jobs := jobs[1..];
    }

    method Push(data: T)
      requires Valid()
      modifies this
      ensures Valid() && jobs == [data] + old(jobs)
    {
      front := new Elem(front, data);
      count := count + 1;
      jobs := [data] + jobs;
    }
  }

  ghost predicate Stacked<T>(front: Elem?<T>, jobs: seq<T>) {
    if jobs == [] then front == null
    else front != null && front.data == jobs[0] && Stacked(front.prev, jobs[1..])
  }
}
