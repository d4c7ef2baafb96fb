/**
 The employee roster: a forest of people, each with an office location and an
 ordered list of direct reports, and the depth-first pre-order walk over it that
 both `flatten_employees` and the row renderer perform.
 */
module Roster {

  import opened SeqFacts

  /** One person of the roster file, with their direct reports in file order. */
  datatype Employee = Employee(name: string, location: string, reports: seq<Employee>)

  /** What `flatten_employees` keeps of each person: name and location. */
  datatype FlatEmployee = FlatEmployee(name: string, location: string)

  /** One step of the depth-first walk: a person and their depth (roots are at depth 0). */
  datatype Visit = Visit(node: Employee, depth: nat)

  /** Number of people in the tree rooted at `e`, `e` included. */
  function Size(e: Employee): nat
  {
    1 + ForestSize(e.reports)
  }

  /** Number of people in a forest. */
  function ForestSize(f: seq<Employee>): nat
  {
    if f == [] then 0 else Size(f[0]) + ForestSize(f[1..])
  }

  /** The pre-order walk of a forest whose roots sit at depth `d`: each person,
      then the walk of their reports one level deeper, then the next sibling. */
  function Walk(f: seq<Employee>, d: nat): seq<Visit>
  {
    if f == [] then [] else [Visit(f[0], d)] + Walk(f[0].reports, d + 1) + Walk(f[1..], d)
  }

  /** The flat entries of a walk, in walk order. */
  function Entries(vs: seq<Visit>): (es: seq<FlatEmployee>)
    ensures |es| == |vs|
  {
    if vs == [] then [] else [FlatEmployee(vs[0].node.name, vs[0].node.location)] + Entries(vs[1..])
  }

  /** The walk visits every person of the forest: its length is the node count. */
  lemma {:induction false} WalkLength(f: seq<Employee>, d: nat)
    ensures |Walk(f, d)| == ForestSize(f)
  {
    if f != [] {
      WalkLength(f[0].reports, d + 1);
      WalkLength(f[1..], d);
    }
  }

  /** Walking two forests one after the other is walking their concatenation. */
  lemma {:induction false} WalkAppend(a: seq<Employee>, b: seq<Employee>, d: nat)
    ensures Walk(a + b, d) == Walk(a, d) + Walk(b, d)
  {
    if a == [] {
      assert a + b == b;
    } else {
      assert (a + b)[0] == a[0];
      assert (a + b)[1..] == a[1..] + b;
      WalkAppend(a[1..], b, d);
      ConcatAssoc([Visit(a[0], d)] + Walk(a[0].reports, d + 1), Walk(a[1..], d), Walk(b, d));
    }
  }

  /** Node counts add up over concatenation. */
  lemma {:induction false} ForestSizeAppend(a: seq<Employee>, b: seq<Employee>)
    ensures ForestSize(a + b) == ForestSize(a) + ForestSize(b)
  {
    if a == [] {
      assert a + b == b;
    } else {
      assert (a + b)[0] == a[0];
      assert (a + b)[1..] == a[1..] + b;
      ForestSizeAppend(a[1..], b);
    }
  }

  /** Pre-order, contiguity and depth: the visit at position `k` is followed
      immediately by the walk of that person's reports, one level deeper, and
      that block fits inside the walk. So a manager precedes all of their
      direct and indirect reports, and each subtree is one contiguous block. */
  lemma {:induction false} WalkSubtree(f: seq<Employee>, d: nat, k: nat)
    requires k < |Walk(f, d)|
    ensures k + Size(Walk(f, d)[k].node) <= |Walk(f, d)|
    ensures Walk(f, d)[k + 1 .. k + Size(Walk(f, d)[k].node)]
         == Walk(Walk(f, d)[k].node.reports, Walk(f, d)[k].depth + 1)
    decreases f, 1
  {
    assert f != [];
    WalkLength(f[0].reports, d + 1);
    if k == 0 {
      var w := Walk(f, d);
      assert w == [Visit(f[0], d)] + Walk(f[0].reports, d + 1) + Walk(f[1..], d);
    } else if k <= ForestSize(f[0].reports) {
      WalkSubtreeInReports(f, d, k);
    } else {
      WalkSubtreeInSiblings(f, d, k);
    }
  }

  /** The case of `WalkSubtree` where position `k` falls in the first root's reports. */
  lemma {:induction false} WalkSubtreeInReports(f: seq<Employee>, d: nat, k: nat)
    requires f != [] && 0 < k <= ForestSize(f[0].reports)
    ensures k < |Walk(f, d)|
    ensures k + Size(Walk(f, d)[k].node) <= |Walk(f, d)|
    ensures Walk(f, d)[k + 1 .. k + Size(Walk(f, d)[k].node)]
         == Walk(Walk(f, d)[k].node.reports, Walk(f, d)[k].depth + 1)
    decreases f, 0
  {
    var w := Walk(f, d);
    var head := Walk(f[0].reports, d + 1);
    var tail := Walk(f[1..], d);
    var first := [Visit(f[0], d)] + head;
    assert w == first + tail;
    WalkLength(f[0].reports, d + 1);
    WalkSubtree(f[0].reports, d + 1, k - 1);
    var v := head[k - 1];
    var n := Size(v.node);
    assert w[k] == v;
    SliceShift(first, tail, k + 1, k + n);
    SliceDrop([Visit(f[0], d)], head, k + 1, k + n);
  }

  /** The case of `WalkSubtree` where position `k` falls after the first root's subtree. */
  lemma {:induction false} WalkSubtreeInSiblings(f: seq<Employee>, d: nat, k: nat)
    requires f != [] && Size(f[0]) <= k < |Walk(f, d)|
    ensures k + Size(Walk(f, d)[k].node) <= |Walk(f, d)|
    ensures Walk(f, d)[k + 1 .. k + Size(Walk(f, d)[k].node)]
         == Walk(Walk(f, d)[k].node.reports, Walk(f, d)[k].depth + 1)
    decreases f, 0
  {
    var w := Walk(f, d);
    var head := Walk(f[0].reports, d + 1);
    var tail := Walk(f[1..], d);
    var first := [Visit(f[0], d)] + head;
    assert w == first + tail;
    WalkLength(f[0].reports, d + 1);
    var j := k - |first|;
    WalkSubtree(f[1..], d, j);
    var v := tail[j];
    var n := Size(v.node);
    assert w[k] == v;
    SliceDrop(first, tail, k + 1, k + n);
  }

  /** A slice that stays inside the first part of a concatenation. */
  lemma {:induction false} SliceShift<T>(x: seq<T>, y: seq<T>, lo: nat, hi: nat)
    requires lo <= hi <= |x|
    ensures (x + y)[lo .. hi] == x[lo .. hi]
  {
  }

  /** A slice that lies inside the second part of a concatenation. */
  lemma {:induction false} SliceDrop<T>(x: seq<T>, y: seq<T>, lo: nat, hi: nat)
    requires |x| <= lo <= hi <= |x| + |y|
    ensures (x + y)[lo .. hi] == y[lo - |x| .. hi - |x|]
  {
  }

  /** Roots keep their file order and sit at depth `d`: root `i` is visited
      right after the subtrees of the roots before it. */
  lemma {:induction false} WalkRoot(f: seq<Employee>, d: nat, i: nat)
    requires i < |f|
    ensures ForestSize(f[..i]) < |Walk(f, d)|
    ensures Walk(f, d)[ForestSize(f[..i])] == Visit(f[i], d)
  {
    assert f == f[..i] + f[i..];
    WalkAppend(f[..i], f[i..], d);
    WalkLength(f[..i], d);
    WalkLength(f[i..], d);
    assert Walk(f[i..], d)[0] == Visit(f[i], d);
  }

  /** Entries distribute over concatenation of walks. */
  lemma {:induction false} EntriesAppend(a: seq<Visit>, b: seq<Visit>)
    ensures Entries(a + b) == Entries(a) + Entries(b)
  {
    if a == [] {
      assert a + b == b;
    } else {
      assert (a + b)[0] == a[0];
      assert (a + b)[1..] == a[1..] + b;
      EntriesAppend(a[1..], b);
      ConcatAssoc([FlatEmployee(a[0].node.name, a[0].node.location)], Entries(a[1..]), Entries(b));
    }
  }

  /** Entry `k` is the name and location of visit `k`. */
  lemma {:induction false} EntriesAt(vs: seq<Visit>, k: nat)
    requires k < |vs|
    ensures Entries(vs)[k] == FlatEmployee(vs[k].node.name, vs[k].node.location)
  {
    if k > 0 {
      EntriesAt(vs[1..], k - 1);
    } else if |vs| > 1 {
      EntriesAt(vs[1..], 0);
    }
  }

  /** The nested `parse_reports` of `flatten_employees`: appends every person
      of `reportList` and, after each, their reports, to the shared list.
      `depth` is the depth of `reportList` in the roster; it only names which
      part of the walk is appended. */
  method ParseReports(flatList: seq<FlatEmployee>, reportList: seq<Employee>, ghost depth: nat)
    returns (out: seq<FlatEmployee>)
    ensures out == flatList + Entries(Walk(reportList, depth))
    decreases reportList
  {
    out := flatList;
    for i := 0 to |reportList|
      invariant out == flatList + Entries(Walk(reportList[..i], depth))
    {
      var person := reportList[i];
      out := out + [FlatEmployee(person.name, person.location)];
      if person.reports != [] {
        out := ParseReports(out, person.reports, depth + 1);
      }
      ParseStep(flatList, reportList, i, depth);
    }
    assert reportList[..|reportList|] == reportList;
  }

  /** Extending a prefix of `f` by one person adds that person's entry and then
      the entries of their reports. */
  lemma {:induction false} EntriesOfPrefix(f: seq<Employee>, i: nat, d: nat)
    requires i < |f|
    ensures Entries(Walk(f[..i + 1], d))
         == Entries(Walk(f[..i], d)) + [FlatEmployee(f[i].name, f[i].location)]
            + Entries(Walk(f[i].reports, d + 1))
  {
    var person := f[i];
    assert f[..i + 1] == f[..i] + [person];
    WalkAppend(f[..i], [person], d);
    assert Walk([person], d) == [Visit(person, d)] + Walk(person.reports, d + 1) by {
      assert [person][1..] == [];
    }
    EntriesAppend(Walk(f[..i], d), Walk([person], d));
    EntriesAppend([Visit(person, d)], Walk(person.reports, d + 1));
  }

  /** One turn of the loop of `parse_reports` keeps its invariant, whether or
      not the person has reports. */
  lemma {:induction false} ParseStep(acc: seq<FlatEmployee>, f: seq<Employee>, i: nat, d: nat)
    requires i < |f|
    ensures var before := acc + Entries(Walk(f[..i], d)) + [FlatEmployee(f[i].name, f[i].location)];
            && before + Entries(Walk(f[i].reports, d + 1)) == acc + Entries(Walk(f[..i + 1], d))
            && (f[i].reports == [] ==> before == acc + Entries(Walk(f[..i + 1], d)))
  {
    var here := [FlatEmployee(f[i].name, f[i].location)];
    var sub := Entries(Walk(f[i].reports, d + 1));
    EntriesOfPrefix(f, i, d);
    ConcatAssoc(acc, Entries(Walk(f[..i], d)), here);
    ConcatAssoc(acc, Entries(Walk(f[..i], d)) + here, sub);
    if f[i].reports == [] {
      assert sub == [];
      assert Entries(Walk(f[..i], d)) + here + sub == Entries(Walk(f[..i], d)) + here;
    }
  }

  /** `flatten_employees`: the pre-order list of every person of the forest,
      one entry per node. */
  method FlattenEmployees(employees: seq<Employee>) returns (flatList: seq<FlatEmployee>)
    ensures flatList == Entries(Walk(employees, 0))
    ensures |flatList| == ForestSize(employees)
  {
    flatList := ParseReports([], employees, 0);
    WalkLength(employees, 0);
  }

  /** The worked example: for A -> [B, C] and B -> [D] the walk is A, B, D, C
      with depths 0, 1, 2, 1. */
  lemma {:induction false} ExampleOrder()
    ensures var d := Employee("D", "US", []);
            var b := Employee("B", "US", [d]);
            var c := Employee("C", "France", []);
            var a := Employee("A", "US", [b, c]);
            Walk([a], 0) == [Visit(a, 0), Visit(b, 1), Visit(d, 2), Visit(c, 1)]
  {
    var d := Employee("D", "US", []);
    var b := Employee("B", "US", [d]);
    var c := Employee("C", "France", []);
    var a := Employee("A", "US", [b, c]);
    assert [b, c][1..] == [c];
    assert Walk([d], 2) == [Visit(d, 2)];
    assert Walk([b, c], 1) == [Visit(b, 1), Visit(d, 2)] + Walk([c], 1);
  }
}
