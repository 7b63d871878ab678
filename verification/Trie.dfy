/** The rune trie behind kubectl version matching, against its meaning as a set of strings. */
module Collections {

  // ---------------------------------------------------------------- strings and prefixes

  ghost predicate IsPrefix(p: string, s: string) { p <= s }

  /** The prefix closure of a set of strings; the root makes the empty string a member always. */
  ghost predicate InClosure(added: set<string>, p: string) {
    p == [] || exists s :: s in added && p <= s
  }

  /** `p` is in `S` and nothing in `S` properly extends it. */
  ghost predicate Maximal(S: set<string>, p: string) {
    p in S && forall s :: s in S && p <= s ==> s == p
  }

  /** `m` is the longest prefix of `str` that starts one of the strings added. */
  ghost predicate LongestAddedPrefix(added: set<string>, str: string, m: string) {
    && m <= str && InClosure(added, m)
    && forall p :: p <= str && InClosure(added, p) ==> |p| <= |m|
  }

  /** `leaf` is the one and only maximal member of `S` that extends `m`. */
  ghost predicate UniqueCompletion(S: set<string>, m: string, leaf: string) {
    && Maximal(S, leaf) && m <= leaf
    && forall s :: Maximal(S, s) && m <= s ==> s == leaf
  }

  ghost predicate PrefixClosed(S: set<string>) {
    && [] in S
    && forall p, q :: q in S && p <= q ==> p in S
  }

  /** Every member of a finite set of strings extends to a maximal one. */
  lemma {:induction false} ExtendsToMaximal(S: set<string>, p: string) returns (leaf: string)
    requires p in S
    ensures Maximal(S, leaf) && p <= leaf
    decreases |set s | s in S && p <= s|
  {
    if Maximal(S, p) {
      return p;
    }
    var q :| q in S && p <= q && q != p;
    ExtensionsShrink(S, p, q);
    leaf := ExtendsToMaximal(S, q);
  }

  lemma ExtensionsShrink(S: set<string>, p: string, q: string)
    requires p in S && p <= q && p != q
    ensures |set s | s in S && q <= s| < |set s | s in S && p <= s|
  {
    var A, B := set s | s in S && q <= s, set s | s in S && p <= s;
    assert p in B && p !in A;
    assert A <= B - {p};
    Subset(A, B - {p});
  }

  lemma {:induction false} Subset<T>(a: set<T>, b: set<T>)
    requires a <= b
    ensures |a| <= |b|
  {
    if a != {} {
      var x :| x in a;
      Subset(a - {x}, b - {x});
    }
  }

  // ---------------------------------------------------------------- the trie

  class Node {
    const value: char
    var children: map<char, Node>

    constructor (value: char)
      ensures this.value == value && children == map[]
    {
      this.value := value;
      children := map[];
    }
  }

  /** The children of the node at `p` lead exactly to the paths one rune longer. */
  ghost predicate LeadsOn(nodes: map<string, Node>, children: map<char, Node>, p: string) {
    && (forall c :: c in children <==> p + [c] in nodes)
    && (forall c :: c in children ==> children[c] == nodes[p + [c]])
  }

  ghost predicate HasParent(nodes: map<string, Node>, p: string, c: char) {
    p + [c] in nodes ==> p in nodes && nodes[p + [c]].value == c
  }

  ghost predicate TreeShape(root: Node, nodes: map<string, Node>, children: map<string, map<char, Node>>) {
    && children.Keys == nodes.Keys
    && [] in nodes && nodes[[]] == root
    && (forall p, q :: p in nodes && q in nodes && nodes[p] == nodes[q] ==> p == q)
    && (forall p :: p in nodes ==> LeadsOn(nodes, children[p], p))
    && (forall p, c :: HasParent(nodes, p, c))
  }

  lemma LastRune(p: string, c: char, q: string, d: char)
    requires p + [c] == q + [d]
    ensures p == q && c == d
  {
    assert (p + [c])[..|p|] == p && (q + [d])[..|q|] == q;
    assert (p + [c])[|p|] == c && (q + [d])[|q|] == d;
  }

  lemma NewLeafLeadsOn(
      nodes: map<string, Node>, children: map<char, Node>, q: string, p: string, c: char, next: Node)
    requires LeadsOn(nodes, children, q) && p + [c] !in nodes
    ensures LeadsOn(nodes[p + [c] := next], if q == p then children[c := next] else children, q)
  {
    forall d | q + [d] == p + [c]
      ensures q == p && d == c
    {
      LastRune(q, d, p, c);
    }
  }

  lemma NewLeafKeepsShape(
      root: Node, nodes: map<string, Node>, children: map<string, map<char, Node>>, p: string, c: char, next: Node)
    requires TreeShape(root, nodes, children)
    requires p in nodes && p + [c] !in nodes
    requires next !in nodes.Values && next.value == c
    ensures TreeShape(root, nodes[p + [c] := next], children[p := children[p][c := next]][p + [c] := map[]])
  {
    hide LeadsOn, HasParent;
    var nodes', children' := nodes[p + [c] := next], children[p := children[p][c := next]][p + [c] := map[]];
    forall q | q in nodes'
      ensures LeadsOn(nodes', children'[q], q)
    {
      if q == p + [c] {
        NothingBelow(nodes, p + [c]);
        NewLeafLeadsOn(nodes, map[], q, p, c, next);
      } else {
        NewLeafLeadsOn(nodes, children[q], q, p, c, next);
      }
    }
    forall q, d
      ensures HasParent(nodes', q, d)
    {
      NewLeafHasParent(nodes, q, d, p, c, next);
    }
  }

  lemma NewLeafHasParent(nodes: map<string, Node>, q: string, d: char, p: string, c: char, next: Node)
    requires HasParent(nodes, q, d) && p in nodes && next.value == c
    ensures HasParent(nodes[p + [c] := next], q, d)
  {
    if q + [d] == p + [c] {
      LastRune(q, d, p, c);
    }
  }

  lemma NothingBelow(nodes: map<string, Node>, q: string)
    requires forall p, c :: HasParent(nodes, p, c)
    requires q !in nodes
    ensures LeadsOn(nodes, map[], q)
  {
    forall d
      ensures q + [d] !in nodes
    {
      assert HasParent(nodes, q, d);
    }
  }

  /** `nodes` names every node by the path that leads to it. */
  class Trie {
    const root: Node
    ghost var nodes: map<string, Node>
    ghost var added: set<string>

    /** Every node's `children`, by path. */
    ghost function Children(): map<string, map<char, Node>>
      reads this`nodes, nodes.Values
    {
      map p | p in nodes :: nodes[p].children
    }

    ghost predicate Shape()
      reads this`nodes, nodes.Values
    {
      TreeShape(root, nodes, Children())
    }

    ghost predicate Valid()
      reads this, nodes.Values
    {
      && Shape()
      && forall p :: p in nodes <==> InClosure(added, p)
    }

    constructor ()
      ensures Valid() && added == {} && fresh(nodes.Values)
    {
      var r := new Node('\0');
      root := r;
      nodes := map[[] := r];
      added := {};
    }

    lemma ChildOf(p: string, c: char)
      requires Shape() && p in nodes
      ensures c in nodes[p].children <==> p + [c] in nodes
      ensures p + [c] in nodes ==> nodes[p].children[c] == nodes[p + [c]] && nodes[p + [c]].value == c
    {
      assert LeadsOn(nodes, Children()[p], p) && HasParent(nodes, p, c);
    }

    /** Hangs a new node under `node`, which sits at path `p`. */
    method Extend(node: Node, ghost p: string, c: char) returns (next: Node)
      requires Shape()
      requires p in nodes && nodes[p] == node && c !in node.children
      modifies this`nodes, node
      ensures fresh(next)
      ensures nodes == old(nodes)[p + [c] := next]
      ensures Shape()
    {
      ChildOf(p, c);
      ghost var was := Children();
      next := new Node(c);
      NewLeafKeepsShape(root, nodes, was, p, c, next);
      node.children := node.children[c := next];
      nodes := nodes[p + [c] := next];
      assert Children() == was[p := was[p][c := next]][p + [c] := map[]];
    }

    /** After any sequence of `Add`s the trie denotes the prefix closure of the set of strings
        added, whatever their order. */
    method Add(str: string)
      requires Valid()
      modifies this, nodes.Values
      ensures Valid() && added == old(added) + {str}
      ensures fresh(nodes.Values - old(nodes.Values))
    {
      hide Shape;
      var node := root;
      RootIsEmptyPath();
      for i := 0 to |str|
        invariant Shape() && added == old(added)
        invariant str[..i] in nodes && nodes[str[..i]] == node
        invariant forall p :: p in nodes <==> p in old(nodes) || IsPrefix(p, str[..i])
        invariant node in old(nodes.Values) || fresh(node)
        invariant fresh(nodes.Values - old(nodes.Values))
      {
        ghost var here := str[..i];
        assert str[..i + 1] == here + [str[i]];
        PrefixesOfExtension(here, str[i]);
        ChildOf(here, str[i]);
        var next: Node;
        if str[i] in node.children {
          next := node.children[str[i]];
        } else {
          ghost var was := nodes;
          next := Extend(node, here, str[i]);
          ValuesAfterInsert(was, here + [str[i]], next);
        }
        node := next;
      }
      added := added + {str};
      assert str[..|str|] == str;
      ClosureAfterAdd(old(added), str);
    }

    lemma RootIsEmptyPath()
      requires Shape()
      ensures [] in nodes && nodes[[]] == root
    { }

    lemma DenotesClosedSet()
      requires Valid()
      ensures PrefixClosed(nodes.Keys)
    {
      hide Shape;
    }

    /** The walk down `str` stops at the longest prefix. */
    lemma WalkStops(str: string, i: nat)
      requires Valid() && i < |str|
      requires str[..i] in nodes && str[i] !in nodes[str[..i]].children
      ensures LongestAddedPrefix(added, str, str[..i])
      ensures str !in nodes
    {
      hide Shape;
      assert str[..i + 1] == str[..i] + [str[i]];
      ChildOf(str[..i], str[i]);
      DenotesClosedSet();
    }

    method LongestMatch(str: string) returns (m: string, perfect: bool)
      requires Valid()
      ensures LongestAddedPrefix(added, str, m)
      ensures perfect <==> m == str
      ensures perfect <==> InClosure(added, str)
    {
      hide Shape, InClosure;
      m := [];
      RootIsEmptyPath();
      var node := root;
      for i := 0 to |str|
        invariant m == str[..i] && m in nodes && nodes[m] == node
      {
        assert str[..i + 1] == str[..i] + [str[i]];
        ChildOf(m, str[i]);
        if str[i] in node.children {
          m := m + [str[i]];
          node := node.children[str[i]];
        } else {
          WalkStops(str, i);
          return m, false;
        }
      }
      assert str[..|str|] == str;
      return m, true;
    }

    /** Every node below `m` lies on one line with `path`. */
    ghost predicate Chain(m: string, path: string)
      reads this
    {
      && m <= path && path in nodes
      && forall s :: s in nodes && m <= s ==> s <= path || path <= s
    }

    lemma ChainGrows(m: string, path: string, c: char)
      requires Valid() && Chain(m, path)
      requires c in nodes[path].children && |nodes[path].children| == 1
      ensures Chain(m, path + [c])
    {
      hide Shape;
      var next := path + [c];
      ChildOf(path, c);
      DenotesClosedSet();
      forall s | s in nodes && m <= s
        ensures s <= next || next <= s
      {
        if !(s <= path) {
          var d := s[|path|];
          assert s[..|path| + 1] == path + [d];
          assert path + [d] <= s;
          ChildOf(path, d);
          OnlyChild(nodes[path].children, c, d);
        }
      }
    }

    lemma LeafCompletes(m: string, path: string)
      requires Valid() && Chain(m, path)
      requires nodes[path].children == map[]
      ensures UniqueCompletion(nodes.Keys, m, path)
    {
      hide Shape;
      DenotesClosedSet();
      forall s | s in nodes && path <= s
        ensures s == path
      {
        if |s| > |path| {
          ChildOf(path, s[|path|]);
        }
      }
    }

    lemma ForkDoesNotComplete(m: string, path: string, leaf: string)
      requires Valid() && Chain(m, path)
      requires |nodes[path].children| >= 2
      ensures !UniqueCompletion(nodes.Keys, m, leaf)
    {
      hide Shape;
      var c, d := TwoChildren(nodes[path].children);
      ChildOf(path, c);
      ChildOf(path, d);
      var x := ExtendsToMaximal(nodes.Keys, path + [c]);
      var y := ExtendsToMaximal(nodes.Keys, path + [d]);
      assert x[|path|] == c && y[|path|] == d;
      assert m <= path <= x && m <= path <= y;
    }

    /** The code's answer together with `m`, the part of `str` that matched. */
    method BestMatch(str: string) returns (best: string, ok: bool, ghost m: string)
      requires Valid()
      ensures LongestAddedPrefix(added, str, m)
      ensures InClosure(added, str) ==> best == str && ok
      ensures !InClosure(added, str) && !ok ==> best == m
      ensures !InClosure(added, str) && ok ==> UniqueCompletion(nodes.Keys, m, best)
      ensures !InClosure(added, str) ==> (ok <==> exists leaf :: UniqueCompletion(nodes.Keys, m, leaf))
      ensures added != {} && !InClosure(added, str) ==>
        && (ok ==> UniqueCompletion(added, m, best))
        && (ok <==> exists leaf :: UniqueCompletion(added, m, leaf))
      ensures added == {} ==> best == [] && ok
    {
      hide Shape, InClosure, UniqueCompletion;
      best := [];
      m := [];
      RootIsEmptyPath();
      var isPerfectMatch := true;
      var node := root;
      var i := 0;
      while i < |str|
        invariant 0 <= i <= |str|
        invariant isPerfectMatch && best == str[..i] && best in nodes && nodes[best] == node
      {
        assert str[..i + 1] == str[..i] + [str[i]];
        ChildOf(best, str[i]);
        if str[i] in node.children {
          best := best + [str[i]];
          node := node.children[str[i]];
        } else {
          isPerfectMatch := false;
          break;
        }
        i := i + 1;
      }
      m := best;
      if isPerfectMatch {
        assert str[..|str|] == str;
        if added == {} {
          ClosureOfNothing(nodes.Keys);
        }
        return best, true, m;
      }
      WalkStops(str, i);
      if added == {} {
        ClosureOfNothing(nodes.Keys);
      }
      var remainder := [];
      assert best + remainder == m;
      while |node.children| == 1
        invariant Chain(m, best + remainder) && nodes[best + remainder] == node
        decreases |set s | s in nodes.Keys && best + remainder <= s|
      {
        ghost var path := best + remainder;
        var key :| key in node.children;
        ChildOf(path, key);
        ChainGrows(m, path, key);
        ExtensionsShrink(nodes.Keys, path, path + [key]);
        node := node.children[key];
        remainder := remainder + [node.value];
        assert best + remainder == path + [key];
      }
      CompletionOfAdded(added, nodes.Keys, m);
      if |node.children| == 0 {
        LeafCompletes(m, best + remainder);
        best := best + remainder;
        ok := true;
      } else {
        forall leaf ensures !UniqueCompletion(nodes.Keys, m, leaf) {
          ForkDoesNotComplete(m, best + remainder, leaf);
        }
        ok := false;
      }
    }
  }

  lemma TwoChildren<V>(children: map<char, V>) returns (c: char, d: char)
    requires |children| >= 2
    ensures c in children && d in children && c != d
  {
    c :| c in children;
    assert |children.Keys - {c}| >= 1;
    d :| d in children.Keys - {c};
  }

  lemma ValuesAfterInsert(m: map<string, Node>, k: string, v: Node)
    requires k !in m
    ensures m[k := v].Values == m.Values + {v}
  {
    var next := m[k := v];
    assert next[k] == v;
    forall x | x in m.Values
      ensures x in next.Values
    {
      var j :| j in m && m[j] == x;
      assert next[j] == x;
    }
  }

  lemma ClosureAfterAdd(added: set<string>, str: string)
    ensures forall p :: InClosure(added + {str}, p) <==> InClosure(added, p) || IsPrefix(p, str)
  { }

  lemma ClosureOfNothing(closure: set<string>)
    requires forall p :: p in closure <==> InClosure({}, p)
    ensures closure == {[]}
    ensures UniqueCompletion(closure, [], [])
    ensures forall m, leaf :: UniqueCompletion(closure, m, leaf) ==> leaf == []
  {
    assert [] in closure;
  }

  lemma PrefixesOfExtension(s: string, c: char)
    ensures forall p :: IsPrefix(p, s + [c]) <==> IsPrefix(p, s) || p == s + [c]
  { }

  lemma OnlyChild<V>(children: map<char, V>, c: char, d: char)
    requires c in children && d in children && |children| == 1
    ensures c == d
  {
    assert |children.Keys - {c}| == 0;
  }

  /** Once something has been added, the maximal strings of the closure are the maximal
      strings that were added. */
  lemma CompletionOfAdded(added: set<string>, closure: set<string>, m: string)
    requires forall p :: p in closure <==> InClosure(added, p)
    ensures added != {} ==> forall leaf :: UniqueCompletion(closure, m, leaf) <==> UniqueCompletion(added, m, leaf)
  {
    if added != {} {
      var some :| some in added;
      assert forall s :: s in added ==> s in closure;
      forall s
        ensures Maximal(closure, s) <==> Maximal(added, s)
      {
        if Maximal(closure, s) {
          if s == [] {
            assert some in closure && [] <= some;
          } else {
            var t :| t in added && s <= t;
          }
        }
      }
    }
  }
}
