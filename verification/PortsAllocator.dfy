/** The allocator of listening ports: a grid of port numbers, the ports it has given out, the ports others use. */
module PortsAllocator {
  import opened Wrappers

  /** The settings of an allocator. */
  datatype Range = Range(minimum: int, increment: int, maximum: int)

  predicate Usable(g: Range) {
    g.increment > 0
  }

  /** The minimum and what is reached from it by whole increments. */
  predicate OnGrid(g: Range, v: int)
    requires Usable(g)
    decreases if v < g.minimum then 0 else v - g.minimum
  {
    v == g.minimum || (v > g.minimum && OnGrid(g, v - g.increment))
  }

  lemma {:induction false} GridBottom(g: Range, v: int)
    requires Usable(g) && OnGrid(g, v)
    ensures v >= g.minimum
  {
  }

  lemma {:induction false} GridAt(g: Range, k: nat)
    requires Usable(g)
    ensures OnGrid(g, g.minimum + k * g.increment)
  {
    if k == 0 {
    } else {
      GridAt(g, k - 1);
      assert g.minimum + k * g.increment - g.increment == g.minimum + (k - 1) * g.increment;
    }
  }

  /** Distinct grid ports are at least an increment apart. */
  lemma {:induction false} GridSteps(g: Range, u: int, v: int)
    requires Usable(g) && OnGrid(g, u) && OnGrid(g, v) && u < v
    ensures u + g.increment <= v
    decreases if u < g.minimum then 0 else u - g.minimum
  {
    GridBottom(g, u);
    GridBottom(g, v - g.increment);
    if u == g.minimum {
    } else {
      GridSteps(g, u - g.increment, v - g.increment);
    }
  }

  // ----- One allocation

  predicate Taken(inUse: set<int>, busy: set<int>, v: int) {
    v in inUse || v in busy
  }

  /** Walks up from value: None stands for the error "no more ports available". */
  function Walk(g: Range, inUse: set<int>, busy: set<int>, value: int): Option<int>
    requires Usable(g)
    decreases Ahead(inUse + busy, value)
  {
    if !Taken(inUse, busy, value) then Some(value)
    else
      AheadShrinks(inUse + busy, value, g.increment);
      if value in inUse && value + g.increment > g.maximum then None
      else Walk(g, inUse, busy, value + g.increment)
  }

  /** The ports not yet passed; it shrinks at every step of the walk. */
  ghost function Ahead(ports: set<int>, value: int): set<int> {
    set p | p in ports && p >= value
  }

  lemma {:induction false} AheadShrinks(ports: set<int>, value: int, increment: int)
    requires value in ports && increment > 0
    ensures Ahead(ports, value + increment) < Ahead(ports, value)
  {
    assert value in Ahead(ports, value) && value !in Ahead(ports, value + increment);
  }

  function Allocate(g: Range, inUse: set<int>, busy: set<int>): Option<int>
    requires Usable(g)
  {
    Walk(g, inUse, busy, g.minimum)
  }

  /** The least grid port that is neither allocated nor busy. */
  ghost predicate LeastFree(g: Range, inUse: set<int>, busy: set<int>, f: int)
    requires Usable(g)
  {
    && OnGrid(g, f) && !Taken(inUse, busy, f)
    && forall u {:trigger OnGrid(g, u)} :: OnGrid(g, u) && u < f ==> Taken(inUse, busy, u)
  }

  /** An allocated grid port below f from which the walk would step past the maximum. */
  ghost predicate StopsAt(g: Range, inUse: set<int>, f: int, u: int)
    requires Usable(g)
  {
    OnGrid(g, u) && u < f && u in inUse && u + g.increment > g.maximum
  }

  lemma {:induction false} WalkFinds(g: Range, inUse: set<int>, busy: set<int>, value: int, f: int)
    requires Usable(g) && OnGrid(g, value) && value <= f && LeastFree(g, inUse, busy, f)
    ensures Walk(g, inUse, busy, value) == Some(f)
         || (Walk(g, inUse, busy, value) == None && exists u :: value <= u && StopsAt(g, inUse, f, u))
    ensures (exists u :: value <= u && StopsAt(g, inUse, f, u)) ==> Walk(g, inUse, busy, value) == None
    decreases f - value
  {
    if value == f {
    } else {
      GridSteps(g, value, f);
      if value in inUse && value + g.increment > g.maximum {
        assert StopsAt(g, inUse, f, value);
      } else {
        WalkFinds(g, inUse, busy, value + g.increment, f);
        forall u | value <= u && StopsAt(g, inUse, f, u)
          ensures value + g.increment <= u
        {
          if u > value { GridSteps(g, value, u); }
        }
      }
    }
  }

  /** With finitely many taken ports there is a least free grid port. */
  lemma {:induction false} FreeExists(g: Range, inUse: set<int>, busy: set<int>, value: int) returns (f: int)
    requires Usable(g) && OnGrid(g, value)
    requires forall u {:trigger OnGrid(g, u)} :: OnGrid(g, u) && u < value ==> Taken(inUse, busy, u)
    ensures LeastFree(g, inUse, busy, f)
    decreases Ahead(inUse + busy, value)
  {
    if !Taken(inUse, busy, value) {
      f := value;
    } else {
      AheadShrinks(inUse + busy, value, g.increment);
      GridBottom(g, value);
      forall u | OnGrid(g, u) && u < value + g.increment
        ensures Taken(inUse, busy, u)
      {
        if u > value { GridSteps(g, value, u); }
      }
      f := FreeExists(g, inUse, busy, value + g.increment);
    }
  }

  /**
   * `allocate` fails exactly when an allocated port below the least free grid port is less than an increment
   * under the maximum, and gives the least free grid port otherwise.
   */
  lemma {:induction false} AllocateExactly(g: Range, inUse: set<int>, busy: set<int>, f: int)
    requires Usable(g) && LeastFree(g, inUse, busy, f)
    ensures Allocate(g, inUse, busy)
         == if exists u :: StopsAt(g, inUse, f, u) then None else Some(f)
  {
    GridBottom(g, f);
    WalkFinds(g, inUse, busy, g.minimum, f);
    forall u | StopsAt(g, inUse, f, u)
      ensures g.minimum <= u
    {
      GridBottom(g, u);
    }
  }

  /** While a grid port up to the maximum is free, the least one is given; a failure means that none is. */
  lemma {:induction false} AllocateWithinMaximum(g: Range, inUse: set<int>, busy: set<int>, f: int)
    requires Usable(g) && LeastFree(g, inUse, busy, f)
    ensures f <= g.maximum ==> Allocate(g, inUse, busy) == Some(f)
    ensures Allocate(g, inUse, busy) == None ==>
              forall u {:trigger OnGrid(g, u)} :: OnGrid(g, u) && u <= g.maximum ==> Taken(inUse, busy, u)
  {
    AllocateExactly(g, inUse, busy, f);
    if u :| StopsAt(g, inUse, f, u) {
      GridSteps(g, u, f);
    }
  }

  /** Every grid port up to the limit is taken. */
  ghost predicate FullTo(g: Range, inUse: set<int>, busy: set<int>, limit: int)
    requires Usable(g)
  {
    forall u {:trigger OnGrid(g, u)} :: OnGrid(g, u) && u <= limit ==> Taken(inUse, busy, u)
  }

  /** An allocated grid port that the walk reaches, every port up to it being taken, and steps from past the maximum. */
  ghost predicate DeadEnd(g: Range, inUse: set<int>, busy: set<int>, u: int)
    requires Usable(g)
  {
    OnGrid(g, u) && u in inUse && u + g.increment > g.maximum && FullTo(g, inUse, busy, u)
  }

  lemma {:induction false} DeadEndBelow(g: Range, inUse: set<int>, busy: set<int>, f: int, u: int)
    requires Usable(g) && LeastFree(g, inUse, busy, f)
    ensures DeadEnd(g, inUse, busy, u) <==> StopsAt(g, inUse, f, u)
    ensures FullTo(g, inUse, busy, u) <==> u < f
  {
  }

  /** `allocate` fails exactly when the walk comes to an allocated port less than an increment under the maximum. */
  lemma {:induction false} FailsExactly(g: Range, inUse: set<int>, busy: set<int>)
    requires Usable(g)
    ensures Allocate(g, inUse, busy) == None <==> exists u :: DeadEnd(g, inUse, busy, u)
  {
    GridBottomAll(g);
    var f := FreeExists(g, inUse, busy, g.minimum);
    AllocateExactly(g, inUse, busy, f);
    forall u
      ensures DeadEnd(g, inUse, busy, u) <==> StopsAt(g, inUse, f, u)
    {
      DeadEndBelow(g, inUse, busy, f, u);
    }
    if u :| DeadEnd(g, inUse, busy, u) {
      assert StopsAt(g, inUse, f, u);
    }
    if u :| StopsAt(g, inUse, f, u) {
      assert DeadEnd(g, inUse, busy, u);
    }
  }

  lemma {:induction false} GridBottomAll(g: Range)
    requires Usable(g)
    ensures OnGrid(g, g.minimum)
    ensures forall u {:trigger OnGrid(g, u)} :: OnGrid(g, u) ==> u >= g.minimum
  {
    forall u | OnGrid(g, u)
      ensures u >= g.minimum
    {
      GridBottom(g, u);
    }
  }

  /**
   * The maximum is exceeded exactly when every grid port up to it is taken and the walk over them never has to step
   * past the maximum from an allocated one.
   */
  lemma {:induction false} ExceedsMaximumExactly(g: Range, inUse: set<int>, busy: set<int>)
    requires Usable(g)
    ensures (Allocate(g, inUse, busy).Some? && Allocate(g, inUse, busy).value > g.maximum)
       <==> FullTo(g, inUse, busy, g.maximum) && !exists u :: DeadEnd(g, inUse, busy, u)
  {
    FailsExactly(g, inUse, busy);
    GridBottomAll(g);
    var f := FreeExists(g, inUse, busy, g.minimum);
    AllocateExactly(g, inUse, busy, f);
    DeadEndBelow(g, inUse, busy, f, g.maximum);
  }

  /** A busy last port is stepped over without looking at the maximum. */
  lemma {:induction false} ExceedsMaximumExample()
    ensures Allocate(Range(10000, 10, 10000), {}, {10000}) == Some(10010)
  {
    var g := Range(10000, 10, 10000);
    assert Walk(g, {}, {10000}, 10010) == Some(10010);
  }

  // ----- Runs

  datatype Event = DoAllocate(busy: set<int>) | DoFree(value: int)

  /** The ports given out and not freed since, in the order they were given out. */
  function Live(g: Range, events: seq<Event>): seq<int>
    requires Usable(g)
  {
    if events == [] then []
    else
      var live := Live(g, events[..|events| - 1]);
      match events[|events| - 1]
      case DoAllocate(busy) =>
        (match Allocate(g, Allocated(g, events[..|events| - 1]), busy) case Some(v) => live + [v] case None => live)
      case DoFree(value) => Remove(live, value)
  }

  function Remove(live: seq<int>, value: int): seq<int> {
    if live == [] then []
    else if live[0] == value then live[1..]
    else [live[0]] + Remove(live[1..], value)
  }

  /** The `allocated` field of the source over the same run. */
  function Allocated(g: Range, events: seq<Event>): set<int>
    requires Usable(g)
  {
    if events == [] then {}
    else
      var before := Allocated(g, events[..|events| - 1]);
      match events[|events| - 1]
      case DoAllocate(busy) => (match Allocate(g, before, busy) case Some(v) => before + {v} case None => before)
      case DoFree(value) => before - {value}
  }

  predicate Distinct(live: seq<int>) {
    forall i, j :: 0 <= i < j < |live| ==> live[i] != live[j]
  }

  lemma {:induction false} RemoveOne(live: seq<int>, value: int)
    requires Distinct(live)
    ensures Distinct(Remove(live, value))
    ensures forall v :: v in Remove(live, value) <==> v in live && v != value
  {
    if live == [] {
    } else {
      assert live == [live[0]] + live[1..];
      if live[0] != value {
        RemoveOne(live[1..], value);
        var rest := Remove(live[1..], value);
        assert forall i :: 0 <= i < |rest| ==> rest[i] in rest;
      }
    }
  }

  lemma {:induction false} AllocateFresh(g: Range, inUse: set<int>, busy: set<int>)
    requires Usable(g) && Allocate(g, inUse, busy).Some?
    ensures var v := Allocate(g, inUse, busy).value;
            OnGrid(g, v) && v !in inUse && v !in busy
  {
    var f := FreeExists(g, inUse, busy, g.minimum);
    AllocateExactly(g, inUse, busy, f);
  }

  /** Over any run the live ports are distinct, on the grid, and the ones the allocator remembers. */
  lemma {:induction false} LivePorts(g: Range, events: seq<Event>)
    requires Usable(g)
    ensures Distinct(Live(g, events))
    ensures forall v :: v in Live(g, events) <==> v in Allocated(g, events)
    ensures forall v :: v in Allocated(g, events) ==> OnGrid(g, v)
  {
    if events == [] {
    } else {
      var before := events[..|events| - 1];
      LivePorts(g, before);
      match events[|events| - 1] {
        case DoAllocate(busy) =>
          if Allocate(g, Allocated(g, before), busy).Some? {
            AllocateFresh(g, Allocated(g, before), busy);
            var live := Live(g, before);
            assert forall i :: 0 <= i < |live| ==> live[i] in live;
          }
        case DoFree(value) => RemoveOne(Live(g, before), value);
      }
    }
  }

  // ----- The code

  class PortsAllocator {
    const minimum: int
    const increment: int
    const maximum: int
    var inUse: set<int>

    constructor (minimum: int := 10000, increment: int := 10, maximum: int := 65535)
      ensures Settings() == Range(minimum, increment, maximum) && inUse == {}
    {
      this.minimum, this.increment, this.maximum := minimum, increment, maximum;
      inUse := {};
    }

    function Settings(): Range {
      Range(minimum, increment, maximum)
    }

    /** busy is the set of ports that cannot be bound while the call lasts. */
    method Allocate(busy: set<int>) returns (r: Option<int>)
      requires Usable(Settings())
      modifies this
      ensures r == Walk(Settings(), old(inUse), busy, minimum)
      ensures inUse == old(inUse) + (if r.Some? then {r.value} else {})
    {
      var value, chosen := minimum, false;
      while !chosen
        invariant Walk(Settings(), inUse, busy, minimum) == Walk(Settings(), inUse, busy, value)
        invariant chosen ==> !Taken(inUse, busy, value)
        invariant inUse == old(inUse)
        decreases !chosen, Ahead(inUse + busy, value)
      {
        ghost var from := value;
        while value in inUse
          invariant inUse == old(inUse)
          invariant Walk(Settings(), inUse, busy, minimum) == Walk(Settings(), inUse, busy, value)
          invariant Ahead(inUse + busy, value) <= Ahead(inUse + busy, from)
          decreases Ahead(inUse + busy, value)
        {
          AheadShrinks(inUse + busy, value, increment);
          value := value + increment;
          if value > maximum {
            return None;
          }
        }
        if value in busy {
          AheadShrinks(inUse + busy, value, increment);
          value := value + increment;
        } else {
          chosen := true;
        }
      }
      inUse := inUse + {value};
      return Some(value);
    }

    /** False stands for the error "not in allocated ports set". */
    method Free(value: int) returns (ok: bool)
      modifies this
      ensures ok <==> value in old(inUse)
      ensures inUse == old(inUse) - {value}
    {
      if value !in inUse {
        return false;
      }
      inUse := inUse - {value};
      return true;
    }

    method FreeAll() returns (freed: set<int>)
      modifies this
      ensures freed == old(inUse) && inUse == {}
    {
      freed := inUse;
      inUse := {};
    }

    /** Gives num new distinct ports, or fails and keeps those it had already allocated. */
    method AllocateMany(num: nat, busy: set<int>) returns (ret: seq<int>, ok: bool)
      requires Usable(Settings())
      modifies this
      ensures ok ==> |ret| == num
      ensures Distinct(ret)
      ensures forall i :: 0 <= i < |ret| ==> ret[i] !in old(inUse) && ret[i] !in busy && OnGrid(Settings(), ret[i])
      ensures inUse == old(inUse) + set v | v in ret
      ensures !ok ==> Walk(Settings(), inUse, busy, minimum) == None
    {
      ret, ok := [], true;
      for i := 0 to num
        invariant |ret| == i && ok && Distinct(ret)
        invariant forall j :: 0 <= j < |ret| ==> ret[j] !in old(inUse) && ret[j] !in busy && OnGrid(Settings(), ret[j])
        invariant inUse == old(inUse) + set v | v in ret
      {
        ghost var before := inUse;
        var r := Allocate(busy);
        if r == None {
          return ret, false;
        }
        AllocateFresh(Settings(), before, busy);
        ret := ret + [r.value];
      }
    }

    /** Frees in order; stops at the first value that is not allocated. */
    method FreeMany(values: seq<int>) returns (ok: bool)
      modifies this
      ensures ok <==> Distinct(values) && forall i :: 0 <= i < |values| ==> values[i] in old(inUse)
      ensures ok ==> inUse == old(inUse) - set v | v in values
    {
      for i := 0 to |values|
        invariant Distinct(values[..i]) && forall j :: 0 <= j < i ==> values[j] in old(inUse)
        invariant inUse == old(inUse) - set v | v in values[..i]
      {
        ok := Free(values[i]);
        if !ok {
          assert values[i] in values[..i] || values[i] !in old(inUse);
          return;
        }
        assert values[..i + 1] == values[..i] + [values[i]];
      }
      assert values[..|values|] == values;
      return true;
    }

    /** Freeing what was just allocated never fails and puts the allocator back. */
    method AllocateThenFree(num: nat, busy: set<int>) returns (given: bool, freed: bool)
      requires Usable(Settings())
      modifies this
      ensures freed == given
      ensures !given ==> Walk(Settings(), inUse, busy, minimum) == None
      ensures freed ==> inUse == old(inUse)
    {
      var ports;
      ports, given := AllocateMany(num, busy);
      freed := given;
      if given {
        freed := FreeMany(ports);
      }
    }
  }
}
