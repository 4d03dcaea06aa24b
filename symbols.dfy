/**
 * Per-scope symbol tables as the deferred-resolution stage of the builder
 * sees them.
 *
 * A node is a record addressed by its identifier: the two things the stage
 * reads from a node are its first source line (`fromlineno`) and the name of
 * its enclosing frame. A binding list is the ordered list of nodes that
 * define one name in one table. Every scope owns two tables (`locals` and
 * `instance_attrs`); all of them are kept here in one map keyed by
 * `TableRef`, because resolving one module may update the tables of classes
 * and functions defined elsewhere.
 */
module Symbols {

  type NodeId = nat

  datatype Node = Node(id: NodeId, fromlineno: int, frameName: string)

  type Bindings = seq<Node>

  type Table = map<string, Bindings>

  /** Which of a scope's two tables. */
  datatype TableRef = Locals(scope: NodeId) | InstanceAttrs(owner: NodeId)

  type Tables = map<TableRef, Table>

  /** The binding list of `name` in table `ref`; a missing table or key reads as empty. */
  function Lookup(t: Tables, ref: TableRef, name: string): Bindings
  {
    if ref in t && name in t[ref] then t[ref][name] else []
  }

  /** Replaces the binding list of `name` in table `ref`, creating either if missing. */
  function Store(t: Tables, ref: TableRef, name: string, values: Bindings): (r: Tables)
    ensures Lookup(r, ref, name) == values
    ensures forall ref', name' :: ref' != ref || name' != name ==> Lookup(r, ref', name') == Lookup(t, ref', name')
  {
    t[ref := (if ref in t then t[ref] else map[])[name := values]]
  }

  /** Storing twice under the same key keeps only the second list. */
  lemma StoreStore(t: Tables, ref: TableRef, name: string, v1: Bindings, v2: Bindings)
    ensures Store(Store(t, ref, name, v1), ref, name, v2) == Store(t, ref, name, v2)
  {
    var once := Store(t, ref, name, v1);
    assert once[ref][name := v2] == (if ref in t then t[ref] else map[])[name := v2];
  }

  /** Python's `node in values`: nodes compare by identity. */
  predicate Holds(values: Bindings, n: Node)
  {
    exists k :: 0 <= k < |values| && values[k].id == n.id
  }

  ghost predicate SortedByLine(s: Bindings)
  {
    forall i, j :: 0 <= i < j < |s| ==> s[i].fromlineno <= s[j].fromlineno
  }

  /** The subsequence of `s` whose nodes start on source line `line`. */
  function OnLine(s: Bindings, line: int): Bindings
  {
    if s == [] then []
    else (if s[0].fromlineno == line then [s[0]] else []) + OnLine(s[1..], line)
  }

  /** Places `x` before the first node whose line is not smaller than its own. */
  function InsertByLine(x: Node, s: Bindings): Bindings
  {
    if s == [] || x.fromlineno <= s[0].fromlineno then [x] + s
    else [s[0]] + InsertByLine(x, s[1..])
  }

  /**
   * `values.sort(key=lambda node: node.fromlineno)`: Python's list sort is
   * stable, so nodes on the same line keep their relative order.
   */
  function SortByLine(s: Bindings): Bindings
  {
    if s == [] then [] else InsertByLine(s[0], SortByLine(s[1..]))
  }

  /** Every node of the result starts at or after a line that bounds `x` and all of `s`. */
  lemma {:induction false} InsertByLineBound(x: Node, s: Bindings, lo: int)
    requires lo <= x.fromlineno
    requires forall k :: 0 <= k < |s| ==> lo <= s[k].fromlineno
    ensures forall k :: 0 <= k < |InsertByLine(x, s)| ==> lo <= InsertByLine(x, s)[k].fromlineno
  {
    if s != [] && x.fromlineno > s[0].fromlineno {
      InsertByLineBound(x, s[1..], lo);
    }
  }

  lemma {:induction false} InsertByLinePermutes(x: Node, s: Bindings)
    ensures multiset(InsertByLine(x, s)) == multiset(s) + multiset{x}
  {
    if s != [] && x.fromlineno > s[0].fromlineno {
      InsertByLinePermutes(x, s[1..]);
      assert s == [s[0]] + s[1..];
    }
  }

  lemma {:induction false} InsertByLineSorted(x: Node, s: Bindings)
    requires SortedByLine(s)
    ensures SortedByLine(InsertByLine(x, s))
  {
    if s != [] && x.fromlineno > s[0].fromlineno {
      InsertByLineSorted(x, s[1..]);
      InsertByLineBound(x, s[1..], s[0].fromlineno);
    }
  }

  lemma OnLineCons(x: Node, s: Bindings, line: int)
    ensures OnLine([x] + s, line) == (if x.fromlineno == line then [x] else []) + OnLine(s, line)
  {
    assert ([x] + s)[0] == x && ([x] + s)[1..] == s;
  }

  lemma {:induction false} InsertByLineOnLine(x: Node, s: Bindings, line: int)
    ensures OnLine(InsertByLine(x, s), line)
         == (if x.fromlineno == line then [x] else []) + OnLine(s, line)
  {
    if s == [] || x.fromlineno <= s[0].fromlineno {
      OnLineCons(x, s, line);
    } else {
      InsertByLineOnLine(x, s[1..], line);
      OnLineCons(s[0], InsertByLine(x, s[1..]), line);
      OnLineCons(s[0], s[1..], line);
      assert s == [s[0]] + s[1..];
    }
  }

  /** The sort orders by line and is a permutation of its input. */
  lemma {:induction false} SortByLineSorted(s: Bindings)
    ensures SortedByLine(SortByLine(s))
    ensures multiset(SortByLine(s)) == multiset(s)
  {
    if s != [] {
      SortByLineSorted(s[1..]);
      InsertByLineSorted(s[0], SortByLine(s[1..]));
      InsertByLinePermutes(s[0], SortByLine(s[1..]));
      assert s == [s[0]] + s[1..];
    }
  }

  /** Stability: the nodes of every single line keep their relative order. */
  lemma {:induction false} SortByLineStable(s: Bindings, line: int)
    ensures OnLine(SortByLine(s), line) == OnLine(s, line)
  {
    if s != [] {
      SortByLineStable(s[1..], line);
      InsertByLineOnLine(s[0], SortByLine(s[1..]), line);
    }
  }

  lemma OnLineHead(s: Bindings)
    requires s != []
    ensures OnLine(s, s[0].fromlineno) == [s[0]] + OnLine(s[1..], s[0].fromlineno)
  {
  }

  lemma {:induction false} OnLineMember(s: Bindings, line: int)
    requires OnLine(s, line) != []
    ensures exists k :: 0 <= k < |s| && s[k].fromlineno == line
  {
    if s[0].fromlineno != line {
      OnLineMember(s[1..], line);
      var k :| 0 <= k < |s[1..]| && s[1..][k].fromlineno == line;
      assert s[k + 1].fromlineno == line;
    }
  }

  /**
   * Two line-sorted lists that agree on every line's subsequence are equal:
   * a stable sort by line has exactly one possible result.
   */
  lemma {:induction false} SortedSameLinesEqual(a: Bindings, b: Bindings)
    requires SortedByLine(a) && SortedByLine(b)
    requires forall line :: OnLine(a, line) == OnLine(b, line)
    ensures a == b
    decreases |a|
  {
    if a == [] {
      if b != [] {
        OnLineHead(b);
      }
    } else {
      if b == [] {
        OnLineHead(a);
      } else {
        var m, n := a[0].fromlineno, b[0].fromlineno;
        OnLineHead(a);
        OnLineHead(b);
        OnLineMember(b, m);
        OnLineMember(a, n);
        assert m <= n && n <= m;
        assert a[0] == OnLine(a, m)[0] == OnLine(b, m)[0] == b[0];
        forall line ensures OnLine(a[1..], line) == OnLine(b[1..], line) {
          assert OnLine(a, line) == OnLine(b, line);
          OnLineCons(a[0], a[1..], line);
          OnLineCons(b[0], b[1..], line);
          assert a == [a[0]] + a[1..] && b == [b[0]] + b[1..];
          if m == line {
            assert OnLine(a[1..], line) == OnLine(a, line)[1..];
            assert OnLine(b[1..], line) == OnLine(b, line)[1..];
          } else {
            assert a[0].fromlineno != line && b[0].fromlineno != line;
            assert OnLine(a, line) == [] + OnLine(a[1..], line) == OnLine(a[1..], line);
            assert OnLine(b, line) == [] + OnLine(b[1..], line) == OnLine(b[1..], line);
          }
        }
        SortedSameLinesEqual(a[1..], b[1..]);
        assert a == [a[0]] + a[1..] && b == [b[0]] + b[1..];
      }
    }
  }

  /** Any line-sorted list that keeps every line's order is the result of `SortByLine`. */
  lemma SortByLineUnique(s: Bindings, r: Bindings)
    requires SortedByLine(r)
    requires forall line :: OnLine(r, line) == OnLine(s, line)
    ensures r == SortByLine(s)
  {
    SortByLineSorted(s);
    forall line ensures OnLine(r, line) == OnLine(SortByLine(s), line) {
      SortByLineStable(s, line);
    }
    SortedSameLinesEqual(r, SortByLine(s));
  }

  /** Re-sorting a list that is already in line order changes nothing. */
  lemma SortByLineOfSorted(s: Bindings)
    requires SortedByLine(s)
    ensures SortByLine(s) == s
  {
    SortByLineUnique(s, s);
  }
}
