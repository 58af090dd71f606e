/**
 The chunked serialization buffer: a linked list of equally sized nodes with a
 cursor node. Every operation is proved to act on the flat sequence `mem` the
 way module `Flat` says.
 */
module ByteArray {
  import opened Bytes
  import opened Flat

  class Node {
    const size: nat
    const data: array<byte>
    var next: Node?
    ghost const index: nat  // its place in the list

    /** The bytes of a new node are whatever the allocator left there. */
    constructor (s: nat, ghost i: nat)
      ensures size == s == data.Length && next == null && index == i && fresh(data)
    {
      size, data, next, index := s, new byte[s], null, i;
    }
  }

  method CopyInto(a: array<byte>, at: nat, s: seq<byte>)
    requires at + |s| <= a.Length
    modifies a
    ensures a[..] == Splice(old(a[..]), at, s)
  {
    ghost var before := a[..];
    for k := 0 to |s|
      invariant forall i :: 0 <= i < a.Length ==> a[i] == if at <= i < at + k then s[i - at] else before[i]
    {
      a[at + k] := s[k];
    }
    SplicePointwise(before, at, s, a[..]);
  }

  lemma SplicePointwise(m: seq<byte>, p: nat, s: seq<byte>, r: seq<byte>)
    requires |r| == |m| && p + |s| <= |m|
    requires forall i :: 0 <= i < |r| ==> r[i] == if p <= i < p + |s| then s[i - p] else m[i]
    ensures r == Splice(m, p, s)
  {
  }

  // ----- what the copy loops have done so far --------------------------------

  /** The first `b` bytes of `buf` have replaced those of `mem0` from `p` on. */
  ghost predicate Filled(mem: seq<byte>, mem0: seq<byte>, p: nat, buf: seq<byte>, b: nat)
  {
    b <= |buf| && |mem0| == |mem| && p + b <= |mem| && mem == Splice(mem0, p, buf[..b])
  }

  lemma FilledNone(mem: seq<byte>, p: nat, buf: seq<byte>)
    requires p <= |mem|
    ensures Filled(mem, mem, p, buf, 0)
  {
  }

  lemma FilledMore(mem: seq<byte>, mem0: seq<byte>, p: nat, buf: seq<byte>, b: nat, n: nat)
    requires Filled(mem, mem0, p, buf, b) && b + n <= |buf| && p + b + n <= |mem|
    ensures Filled(Splice(mem, p + b, buf[b..b + n]), mem0, p, buf, b + n)
  {
    SpliceSplice(mem0, p, buf[..b], buf[b..b + n]);
    assert buf[..b] + buf[b..b + n] == buf[..b + n];
  }

  lemma FilledAll(mem: seq<byte>, mem0: seq<byte>, p: nat, buf: seq<byte>)
    requires Filled(mem, mem0, p, buf, |buf|)
    ensures p + |buf| <= |mem0| && mem == Splice(mem0, p, buf)
  {
    assert buf[..|buf|] == buf;
  }

  /** `s` was copied out of `mem` from `p` on. */
  ghost predicate Taken(s: seq<byte>, mem: seq<byte>, p: nat) { p + |s| <= |mem| && s == mem[p..p + |s|] }

  lemma TakenMore(s: seq<byte>, t: seq<byte>, mem: seq<byte>, p: nat)
    requires Taken(s, mem, p) && Taken(t, mem, p + |s|)
    ensures Taken(s + t, mem, p)
  {
  }

  lemma TakenAll(s: seq<byte>, mem: seq<byte>, p: nat)
    requires Taken(s, mem, p)
    ensures p + |s| <= |mem| && s == mem[p..p + |s|]
  {
  }

  class ByteArray {
    const base: nat
    var position: nat
    var capacity: nat
    var size: nat
    var littleEndian: bool
    var root: Node
    var cur: Node?

    ghost var nodes: seq<Node>  // the list
    ghost var cells: set<Node>  // its nodes, as a footprint
    ghost var owner: map<array<byte>, nat>  // which node a block of memory belongs to
    ghost var store: set<array<byte>>  // the blocks of memory, as a footprint
    ghost var blocks: seq<seq<byte>>  // the contents of each node
    ghost var mem: seq<byte>  // the same, as one sequence
    ghost var at: nat  // the place of the cursor node

    /** The list: `nodes` in order, linked by `next`, pairwise distinct. */
    ghost predicate Chain()
      reads this`root, this`nodes, this`cells, cells`next
    {
      && base > 0
      && |nodes| > 0 && root == nodes[0]
      && (forall i {:trigger NodeAt(nodes[i], i)} :: 0 <= i < |nodes| ==> NodeAt(nodes[i], i))
    }

    ghost predicate NodeAt(n: Node, i: nat)
      reads this`nodes, this`cells, cells`next
    {
      && n in cells && n.index == i && n.size == base
      && n.next == if i + 1 < |nodes| then nodes[i + 1] else null
    }

    /** The bytes: each node holds its block of `mem`. */
    ghost predicate Stored()
      reads this`nodes, this`blocks, this`mem, this`capacity, this`owner, this`store, store
    {
      StoredIn(nodes)
    }

    ghost predicate StoredIn(ns: seq<Node>)
      reads this`blocks, this`mem, this`capacity, this`owner, this`store, store
    {
      && |blocks| == |ns| && Uniform(blocks, base) && mem == Flatten(blocks)
      && capacity == Start(|ns|, base) == |mem|
      && (forall i {:trigger Holds(ns[i], i)} :: 0 <= i < |ns| ==> Holds(ns[i], i))
    }

    ghost predicate Holds(n: Node, i: nat)
      reads this`blocks, this`owner, this`store, store
    {
      && n.data in store && n.data in owner && owner[n.data] == i
      && i < |blocks| && n.data[..] == blocks[i]
    }

    ghost predicate Linked()
      reads this, cells, store
    {
      Chain() && Stored()
    }

    /** The cursor is node number `at`, which holds offset `p`, or null when `p`
        is the end of the buffer; see `CursorNode`. */
    ghost predicate Aimed(c: Node?, at: nat, p: nat)
      reads this`nodes
    {
      if p < Start(|nodes|, base)
      then at < |nodes| && c == nodes[at] && Start(at, base) <= p < Start(at, base) + base
      else c == null
    }

    ghost predicate Valid()
      reads this, cells, store
    {
      Linked() && position <= size <= capacity && Aimed(cur, at, position)
    }

    ghost function View(): Flat
      reads this
    {
      Flat(base, mem, size, position)
    }

    lemma LinkedSize()
      requires Linked()
      ensures base > 0 && |nodes| > 0 && |mem| == capacity == Start(|nodes|, base)
    {
    }

    lemma FirstNode()
      requires Valid()
      ensures base <= |mem| && root in cells
    {
      assert NodeAt(root, 0);
      StartMonotone(1, |nodes|, base);
      assert Start(1, base) == base;
    }

    lemma ValidView()
      requires Valid()
      ensures View().Ok() && |mem| == capacity == Start(|nodes|, base)
    {
    }

    constructor (baseSize: nat := 4096)
      requires baseSize > 0
      ensures Valid() && fresh(cells) && fresh(store)
      ensures base == baseSize && capacity == baseSize && size == 0 && position == 0
      ensures !littleEndian
    {
      var n := new Node(baseSize, 0);
      base := baseSize;
      position, capacity, size := 0, baseSize, 0;
      littleEndian := false;
      root, cur := n, n;
      nodes, cells, blocks, at := [n], {n}, [n.data[..]], 0;
      owner, store := map[n.data := 0], {n.data};
      mem := Flatten([n.data[..]]);
      new;
      assert Start(1, base) == base;
      FlattenLength([n.data[..]], base);
      assert NodeAt(n, 0) && Holds(n, 0);
    }

    // ----- one node ------------------------------------------------------

    /** memcpy into node number `i`. */
    method Put(ghost i: nat, node: Node, off: nat, s: seq<byte>)
      requires Linked() && i < |nodes| && node == nodes[i] && off + |s| <= base
      modifies node.data, this`mem, this`blocks
      ensures Linked() && Start(i, base) + off + |s| <= |mem|
      ensures mem == Splice(old(mem), Start(i, base) + off, s)
    {
      assert NodeAt(node, i) && Holds(node, i);
      FlattenSplice(blocks, base, i, off, s);
      CopyInto(node.data, off, s);
      blocks := blocks[i := node.data[..]];
      mem := Flatten(blocks);
      forall j | 0 <= j < |nodes|
        ensures Holds(nodes[j], j)
      {
        assert NodeAt(nodes[j], j) && old(Holds(nodes[j], j));
      }
    }

    /** Where the bytes of node number `i` are. */
    lemma InBlock(i: nat, node: Node, off: nat, n: nat)
      requires Linked() && i < |nodes| && node == nodes[i] && off + n <= base
      ensures node.data.Length == base && Start(i, base) + off + n <= |mem|
      ensures node.data[off..off + n] == mem[Start(i, base) + off..Start(i, base) + off + n]
    {
      assert Holds(node, i);
      FlattenBlock(blocks, base, i);
      ghost var o := Start(i, base);
      assert node.data[off..off + n] == node.data[..][off..off + n];
      SliceOfSlice(mem, o, base, off, off + n);
    }

    // ----- growing -------------------------------------------------------

    /** Hang the new node `n` behind the last one: the list ... */
    method Link(tail: Node, n: Node)
      requires Chain() && tail == nodes[|nodes| - 1]
      requires n !in cells && n.index == |nodes| && n.size == base && n.next == null
      modifies tail`next, this`nodes, this`cells
      ensures Chain() && nodes == old(nodes) + [n] && cells == old(cells) + {n}
    {
      ghost var k := |nodes|;
      assert NodeAt(tail, k - 1);
      tail.next := n;
      nodes, cells := nodes + [n], cells + {n};
      assert NodeAt(n, k);
      forall j | 0 <= j < k ensures NodeAt(nodes[j], j) { assert old(NodeAt(nodes[j], j)); }
    }

    /** ... and its memory. */
    method Store(ghost ns: seq<Node>, n: Node)
      requires StoredIn(ns) && n.data.Length == base && n.data !in owner
      modifies this`capacity, this`blocks, this`mem, this`owner, this`store
      ensures StoredIn(ns + [n]) && store == old(store) + {n.data}
      ensures capacity == old(capacity) + base && old(mem) <= mem
    {
      ghost var k := |ns|;
      FlattenAppend(blocks, n.data[..]);
      hide Flatten;
      capacity := capacity + base;
      blocks := blocks + [n.data[..]];
      owner, store := owner[n.data := k], store + {n.data};
      mem := Flatten(blocks);
      assert Holds(n, k);
      forall j | 0 <= j < k ensures Holds(ns[j], j) { assert old(Holds(ns[j], j)); }
    }

    method Append(tail: Node, n: Node)
      requires Linked() && tail == nodes[|nodes| - 1]
      requires n !in cells && n.index == |nodes| && n.size == base == n.data.Length && n.next == null
      requires n.data !in owner
      modifies tail`next, this`capacity, this`nodes, this`blocks, this`mem, this`cells, this`owner, this`store
      ensures Linked()
      ensures nodes == old(nodes) + [n] && cells == old(cells) + {n} && store == old(store) + {n.data}
      ensures capacity == old(capacity) + base && old(mem) <= mem
    {
      hide Chain, StoredIn;
      ghost var ns := nodes;
      Link(tail, n);
      Store(ns, n);
    }

    lemma TailInCells()
      requires Linked()
      ensures |nodes| > 0 && nodes[|nodes| - 1] in cells
    {
      assert NodeAt(nodes[|nodes| - 1], |nodes| - 1);
    }

    method Tail() returns (tmp: Node)
      requires Linked()
      ensures tmp == nodes[|nodes| - 1]
    {
      tmp := root;
      ghost var i := 0;
      while tmp.next != null
        invariant i < |nodes| && tmp == nodes[i]
        decreases |nodes| - i
      {
        assert NodeAt(nodes[i], i);
        tmp := tmp.next;
        i := i + 1;
      }
      assert NodeAt(nodes[i], i);
    }

    /** Hang `count` new nodes behind the last one; `first` is the first of them. */
    method Grow(count: nat) returns (first: Node?)
      requires Linked()
      modifies this`capacity, this`nodes, this`blocks, this`mem, this`cells, this`owner, this`store, cells`next
      ensures Linked() && fresh(cells - old(cells)) && fresh(store - old(store))
      ensures |nodes| == |old(nodes)| + count && old(nodes) <= nodes && old(mem) <= mem
      ensures first == if count == 0 then null else nodes[|old(nodes)|]
    {
      var tmp := Tail();
      hide Linked, Chain, Stored;
      first := null;
      for i := 0 to count
        invariant Linked() && fresh(cells - old(cells)) && fresh(store - old(store))
        invariant |nodes| == |old(nodes)| + i && tmp == nodes[|nodes| - 1]
        invariant old(nodes) <= nodes && old(mem) <= mem
        invariant first == if i == 0 then null else nodes[|old(nodes)|]
      {
        TailInCells();
        var n := new Node(base, |nodes|);
        Append(tmp, n);
        if first == null {
          first := n;
        }
        tmp := n;
      }
    }

    /** Grow, and aim the cursor of a full buffer at the first new node. */
    method GrowAndAim(count: nat)
      requires Valid() && (position == capacity ==> count > 0)
      modifies this`capacity, this`nodes, this`blocks, this`mem, this`cells, this`owner, this`store
      modifies this`cur, this`at, cells`next
      ensures Valid() && fresh(cells - old(cells)) && fresh(store - old(store))
      ensures |nodes| == |old(nodes)| + count && old(nodes) <= nodes && old(mem) <= mem
      ensures capacity == old(capacity) + Start(count, base) && cur != null
    {
      LinkedSize();
      hide Chain, Stored;
      var full := position == capacity;
      ghost var k := |nodes|;
      var first := Grow(count);
      LinkedSize();
      StartAdd(k, count, base);
      StartMonotone(k, |nodes|, base);
      if full {
        cur, at := first, k;
      }
    }

    /** Make room for `n` bytes behind the cursor. It does so exactly when `Fits`
        holds, keeps every byte, and re-aims the cursor of a full buffer. */
    method AddCapacity(n: nat)
      requires Valid()
      modifies this`capacity, this`nodes, this`blocks, this`mem, this`cells, this`owner, this`store
      modifies this`cur, this`at, cells`next
      ensures Valid() && fresh(cells - old(cells)) && fresh(store - old(store))
      ensures |nodes| == |old(nodes)| + AddCount(base, old(capacity - position), n)
      ensures old(nodes) <= nodes && old(mem) <= mem
      ensures capacity == CapacityAfter(base, old(capacity), position, n)
      ensures capacity - position >= n <==> Fits(base, old(capacity - position), n)
      ensures n > 0 ==> cur != null
    {
      LinkedSize();
      hide Chain, Stored;
      AddCapacityIffFits(base, capacity - position, n);
      if n == 0 {
        return;
      }
      var oldCap := capacity - position;
      if oldCap > n {
        return;
      }
      AddCountPositive(base, n);
      var need := n - oldCap;
      var count := need / base + (if need % base > oldCap then 1 else 0);
      GrowAndAim(count);
    }

    // ----- the cursor ----------------------------------------------------

    /** The cursor is node number position / base, or null exactly at the end. */
    lemma CursorNode()
      requires Valid()
      ensures capacity == |nodes| * base
      ensures position < capacity ==>
                position / base < |nodes| && cur == nodes[position / base]
                && at == position / base && position % base == position - Start(at, base)
      ensures position == capacity <==> cur == null
    {
      StartIsProduct(|nodes|, base);
      if position < capacity {
        LocateUnique(position, base, at, position - Start(at, base));
      }
    }

    /** `c` is node number `i`, or null right behind the last one. */
    ghost predicate IsNode(c: Node?, i: nat)
      reads this`nodes
    {
      if i < |nodes| then c == nodes[i] && c.size == base else i == |nodes| && c == null
    }

    lemma AimAt(c: Node?, i: nat, off: nat)
      requires Linked() && IsNode(c, i) && off < base && (i == |nodes| ==> off == 0)
      ensures Aimed(c, i, Start(i, base) + off)
      ensures Start(i, base) + off <= capacity
    {
      if i < |nodes| { StartMonotone(i, |nodes|, base); }
    }

    lemma NodeIndex(n: Node, i: nat)
      requires Linked() && IsNode(n, i)
      ensures n.index == i && n in cells
    {
      assert NodeAt(nodes[i], i);
    }

    lemma NextNode(n: Node, i: nat)
      requires Linked() && IsNode(n, i)
      ensures IsNode(n.next, i + 1)
    {
      assert NodeAt(nodes[i], i);
      assert i + 1 < |nodes| ==> NodeAt(nodes[i + 1], i + 1);
    }

    /** The cursor node and the cursor's offset in it. */
    method Here() returns (c: Node?, npos: nat)
      requires Valid()
      ensures c == cur && (cur == null <==> position == capacity)
      ensures npos < base
      ensures cur != null ==> IsNode(c, at) && Start(at, base) + npos == position
    {
      c, npos := cur, position % base;
      CursorNode();
      assert cur != null ==> NodeAt(nodes[at], at);
    }

    /** Put the cursor on offset `p`, node `c`, and drag the size along. */
    method MoveTo(c: Node?, ghost i: nat, p: nat)
      requires Linked() && p <= capacity && size <= capacity && Aimed(c, i, p)
      modifies this`position, this`size, this`cur, this`at
      ensures Valid() && View() == Moved(old(View()), p)
    {
      hide Chain, Stored;
      cur, at, position := c, i, p;
      if position > size {
        size := position;
      }
    }

    method SetPosition(v: nat) returns (o: Outcome)
      requires Valid()
      modifies this`position, this`size, this`cur, this`at
      ensures Valid()
      ensures o == if v > capacity then OutOfRange else Done
      ensures o.Done? ==> View() == Moved(old(View()), v)
      ensures !o.Done? ==> View() == old(View())
    {
      if v > capacity {
        return OutOfRange;
      }
      var c, i := Find(v);
      MoveTo(c, i, v);
      o := Done;
    }

    /** The walk of setPosition to the node that holds offset `v`. */
    method Find(v: nat) returns (c: Node?, ghost i: nat)
      requires Linked() && v <= capacity
      ensures Aimed(c, i, v)
    {
      var left := v;
      c, i := root, 0;
      assert NodeAt(nodes[0], 0);
      while left > c.size
        invariant i < |nodes| && IsNode(c, i)
        invariant Start(i, base) + left == v && (i > 0 ==> left > 0)
        decreases left
      {
        left := left - c.size;
        assert Start(i + 1, base) < capacity;
        NextNode(c, i);
        c := c.next;
        i := i + 1;
      }
      if left == c.size {
        NextNode(c, i);
        c := c.next;
        i, left := i + 1, 0;
      }
      AimAt(c, i, left);
    }

    // ----- writing -------------------------------------------------------

    /** Where a transfer of `n` bytes inside node `i` leaves the cursor. */
    method Advance(ghost i: nat, c: Node, npos: nat, n: nat) returns (d: Node?, ghost j: nat)
      requires Linked() && IsNode(c, i) && npos + n <= base && i < |nodes|
      ensures Aimed(d, j, Start(i, base) + npos + n)
    {
      d, j := c, i;
      if c.size == npos + n {
        NextNode(c, i);
        d := c.next;
        j := i + 1;
        AimAt(d, j, 0);
      } else {
        AimAt(d, j, npos + n);
      }
    }

    /** The copy loop of write: fill the room from node `c`, offset `npos`, on.
        `ok` is false where the source steps onto a null node. */
    method Fill(ghost i0: nat, c0: Node, npos0: nat, buf: seq<byte>)
      returns (ok: bool, d: Node?, ghost j: nat)
      requires Linked() && i0 < |nodes| && IsNode(c0, i0) && npos0 < base && buf != []
      modifies this`mem, this`blocks, store
      ensures ok <==> capacity - Start(i0, base) - npos0 >= |buf|
      ensures ok ==> Linked() && Aimed(d, j, Start(i0, base) + npos0 + |buf|)
      ensures ok ==> mem == Splice(old(mem), Start(i0, base) + npos0, buf)
    {
      AimAt(c0, i0, npos0);
      LinkedSize();
      FilledNone(mem, Start(i0, base) + npos0, buf);
      hide Linked, Chain, Stored, Filled, Splice, Aimed, Start;
      ok, d, j := FillLoop(i0, c0, npos0, buf, mem, Start(i0, base) + npos0);
    }

    method FillLoop(ghost i0: nat, c0: Node, npos0: nat, buf: seq<byte>, ghost mem0: seq<byte>, ghost p: nat)
      returns (ok: bool, d: Node?, ghost j: nat)
      requires Linked() && i0 < |nodes| && IsNode(c0, i0) && npos0 < base && buf != []
      requires Filled(mem, mem0, p, buf, 0) && Start(i0, base) + npos0 == p
      modifies this`mem, this`blocks, store
      ensures ok <==> p + |buf| <= capacity
      ensures ok ==> Linked() && Aimed(d, j, p + |buf|) && |mem0| == capacity && mem == Splice(mem0, p, buf)
    {
      hide Linked, Chain, Stored, Filled, Splice, Aimed, Start;
      var c: Node?, npos: nat, ncap: nat := c0, npos0, c0.size - npos0;
      var left: nat := |buf|;
      ghost var i: nat := i0;
      while left > ncap
        invariant 0 < left <= |buf| && i < |nodes| && IsNode(c, i)
        invariant Start(i, base) + npos == p + |buf| - left && npos < base && npos + ncap == base
        invariant Linked() && Filled(mem, mem0, p, buf, |buf| - left)
        decreases left
      {
        c := FillNode(i, c, npos, mem0, p, buf, |buf| - left, ncap);
        left, i := left - ncap, i + 1;
        if c == null {
          return false, null, 0;
        }
        ncap, npos := c.size, 0;
      }
      d, j := FillLast(i, c, npos, mem0, p, buf, |buf| - left, left);
      ok := true;
    }

    /** A turn that fills a node to its end and goes on to the next. */
    method FillNode(ghost i: nat, c: Node, npos: nat,
                    ghost mem0: seq<byte>, ghost p: nat, buf: seq<byte>, b: nat, n: nat) returns (d: Node?)
      requires Linked() && i < |nodes| && IsNode(c, i) && npos + n == base && b + n < |buf|
      requires Filled(mem, mem0, p, buf, b) && Start(i, base) + npos == p + b
      modifies store, this`mem, this`blocks
      ensures Linked() && Filled(mem, mem0, p, buf, b + n) && IsNode(d, i + 1)
      ensures Start(i + 1, base) == p + b + n && (d == null ==> capacity < p + |buf|)
    {
      LinkedSize();
      hide Linked, Chain, Stored, Filled, Splice;
      FillStep(i, c, npos, mem0, p, buf, b, n);
      NextNode(c, i);
      d := c.next;
    }

    /** What is left after the loop. */
    method FillLast(ghost i: nat, c: Node, npos: nat,
                    ghost mem0: seq<byte>, ghost p: nat, buf: seq<byte>, b: nat, n: nat)
      returns (d: Node?, ghost j: nat)
      requires Linked() && i < |nodes| && IsNode(c, i) && npos + n <= base && b + n == |buf|
      requires Filled(mem, mem0, p, buf, b) && Start(i, base) + npos == p + b
      modifies store, this`mem, this`blocks
      ensures Linked() && Aimed(d, j, p + |buf|) && p + |buf| <= capacity
      ensures |mem0| == capacity && mem == Splice(mem0, p, buf)
    {
      hide Chain, Stored, Filled, Splice;
      FillStep(i, c, npos, mem0, p, buf, b, n);
      LinkedSize();
      FilledAll(mem, mem0, p, buf);
      hide Linked;
      d, j := Advance(i, c, npos, n);
    }

    /** One memcpy of the loop. */
    method FillStep(ghost i: nat, c: Node, npos: nat,
                    ghost mem0: seq<byte>, ghost p: nat, buf: seq<byte>, b: nat, n: nat)
      requires Linked() && i < |nodes| && IsNode(c, i) && npos + n <= base && b + n <= |buf|
      requires Filled(mem, mem0, p, buf, b) && Start(i, base) + npos == p + b
      modifies store, this`mem, this`blocks
      ensures Linked() && Filled(mem, mem0, p, buf, b + n)
    {
      assert NodeAt(nodes[i], i) && Holds(nodes[i], i);
      hide Linked, Chain, Stored, Filled, Splice;
      ghost var mem1 := mem;
      Put(i, c, npos, buf[b..b + n]);
      FilledMore(mem1, mem0, p, buf, b, n);
    }

    /** write once the room is there: the copy loop, then the size. */
    method WriteInRoom(buf: seq<byte>) returns (ok: bool)
      requires Valid() && cur != null && buf != []
      modifies this`mem, this`blocks, this`cur, this`at, this`position, this`size, store
      ensures ok <==> old(capacity - position) >= |buf|
      ensures ok ==> Valid() && Wrote(old(View()), buf, View())
    {
      var c: Node?;
      ghost var i: nat;
      var n, npos := Here();
      ok, c, i := Fill(at, n, npos, buf);
      if ok {
        MoveTo(c, i, position + |buf|);
        WroteSplice(old(View()), old(mem), buf, View());
      }
    }

    /** Write `buf` at the cursor. The source dereferences null (`!ok`) exactly
        when addCapacity leaves too little room. */
    method Write(buf: seq<byte>) returns (ok: bool)
      requires Valid()
      modifies this, cells, store
      ensures fresh(cells - old(cells)) && fresh(store - old(store))
      ensures ok <==> Fits(base, old(capacity - position), |buf|)
      ensures ok ==> Valid() && Wrote(old(View()), buf, View())
      ensures ok ==> capacity == CapacityAfter(base, old(capacity), old(position), |buf|)
      ensures ok ==> littleEndian == old(littleEndian)
    {
      if |buf| == 0 {
        return true;
      }
      AddCapacity(|buf|);
      ghost var g := View();
      ok := WriteInRoom(buf);
      if ok {
        GrewWrote(old(View()), g, buf, View());
      }
    }

    // ----- reading -------------------------------------------------------

    /** memcpy out of node number `i`. */
    method FromNode(ghost i: nat, c: Node, npos: nat, n: nat) returns (t: seq<byte>)
      requires Linked() && i < |nodes| && IsNode(c, i) && npos + n <= base
      ensures |t| == n && Taken(t, mem, Start(i, base) + npos)
    {
      InBlock(i, c, npos, n);
      t := c.data[npos..npos + n];
    }

    /** A turn that empties a node and goes on to the next. */
    method TakeNode(ghost i: nat, c: Node, npos: nat, s: seq<byte>, ghost p: nat, n: nat)
      returns (t: seq<byte>, d: Node)
      requires Linked() && i < |nodes| && IsNode(c, i) && npos + n == base
      requires Taken(s, mem, p) && Start(i, base) + npos == p + |s| && p + |s| + n < capacity
      ensures |t| == |s| + n && Taken(t, mem, p) && Start(i + 1, base) == p + |t|
      ensures i + 1 < |nodes| && IsNode(d, i + 1)
    {
      LinkedSize();
      hide Linked, Chain, Stored, Taken;
      var u := FromNode(i, c, npos, n);
      TakenMore(s, u, mem, p);
      t := s + u;
      NextNode(c, i);
      assert Start(i + 1, base) < capacity;
      d := c.next;
    }

    /** The copy loop of both read overloads: `n` bytes from node `c`, offset
        `npos`, on. */
    method Take(ghost i0: nat, c0: Node, npos0: nat, n: nat)
      returns (s: seq<byte>, d: Node?, ghost j: nat)
      requires Linked() && i0 < |nodes| && IsNode(c0, i0) && npos0 < base
      requires Start(i0, base) + npos0 + n <= capacity
      ensures Start(i0, base) + npos0 + n <= |mem|
      ensures s == mem[Start(i0, base) + npos0..Start(i0, base) + npos0 + n]
      ensures Aimed(d, j, Start(i0, base) + npos0 + n)
    {
      ghost var p := Start(i0, base) + npos0;
      var c: Node, npos: nat, ncap: nat := c0, npos0, c0.size - npos0;
      var left: nat := n;
      ghost var i: nat := i0;
      LinkedSize();
      s := [];
      assert Taken(s, mem, p);
      hide Linked, Chain, Stored, Taken, Start, Aimed;
      while left > ncap
        invariant left + |s| == n && i < |nodes| && IsNode(c, i)
        invariant Start(i, base) + npos == p + |s| && npos < base && npos + ncap == base
        invariant Taken(s, mem, p)
        decreases left
      {
        s, c := TakeNode(i, c, npos, s, p, ncap);
        left, i := left - ncap, i + 1;
        ncap, npos := c.size, 0;
      }
      var t := FromNode(i, c, npos, left);
      TakenMore(s, t, mem, p);
      s := s + t;
      TakenAll(s, mem, p);
      d, j := Advance(i, c, npos, left);
    }

    /** Read `n` bytes at the cursor. A read of nothing at the very end of the
        buffer touches the null cursor (`Crash`). */
    method Read(n: nat) returns (o: Outcome, s: seq<byte>)
      requires Valid()
      modifies this`position, this`size, this`cur, this`at
      ensures Valid()
      ensures o == ReadOutcome(old(View()), n)
      ensures o.Done? ==> DidRead(old(View()), n, s, View())
      ensures !o.Done? ==> View() == old(View())
    {
      if n > size - position {
        return OutOfRange, [];
      }
      var c, npos := Here();
      if c == null {
        return Crash, [];
      }
      var d;
      ghost var j;
      s, d, j := Take(at, c, npos, n);
      MoveTo(d, j, position + n);
      o := Done;
    }

    /** All unread bytes; nothing moves. */
    method ToString() returns (s: seq<byte>)
      requires Valid()
      ensures s == View().Unread()
    {
      if size - position == 0 {
        return [];
      }
      var c, npos := Here();
      var d;
      ghost var j;
      s, d, j := Take(at, c, npos, size - position);
    }

    /** Back to one node and nothing in it. (The nodes behind the first one are
        deleted; here they just become unreachable.) */
    method Clear()
      requires Valid()
      modifies this`position, this`size, this`capacity, this`cur, this`at, root`next
      modifies this`nodes, this`cells, this`owner, this`store, this`blocks, this`mem
      ensures Valid() && cells <= old(cells) && store <= old(store) && root == old(root)
      ensures View() == Flat(base, old(mem)[..base], 0, 0) && capacity == base
    {
      ghost var block := FirstBlock();
      hide Chain, StoredIn, Flatten;
      position, size := 0, 0;
      Unlink();
      KeepFirst(block);
      cur, at := root, 0;
    }

    /** Only the first node is left ... */
    method Unlink()
      requires base > 0 && root.index == 0 && root.size == base
      modifies root`next, this`nodes, this`cells
      ensures Chain() && nodes == [root] && cells == {root}
    {
      root.next := null;
      nodes, cells := [root], {root};
      assert NodeAt(root, 0);
    }

    /** ... and its memory. */
    method KeepFirst(ghost block: seq<byte>)
      requires root.data.Length == base && root.data[..] == block && Flatten([block]) == block
      requires Start(1, base) == base
      modifies this`capacity, this`owner, this`store, this`blocks, this`mem
      ensures StoredIn([root]) && store == {root.data} && mem == block && capacity == base
    {
      capacity := base;
      blocks, mem := [block], block;
      owner, store := map[root.data := 0], {root.data};
      assert Holds(root, 0);
    }

    ghost method FirstBlock() returns (block: seq<byte>)
      requires Linked()
      ensures root in cells && root.data in store && root.size == base == root.data.Length && root.index == 0
      ensures block == root.data[..] == mem[..base] && Flatten([block]) == block
      ensures Start(1, base) == base
    {
      assert NodeAt(root, 0) && Holds(root, 0);
      block := root.data[..];
      FlattenBlock(blocks, base, 0);
      FlattenOne(block);
    }

    // ----- scatter receive -----------------------------------------------

    /** The slices cover offsets `p` up to `q` of the buffer, in order. */
    ghost predicate Tiles(v: seq<Slice>, p: nat, q: nat)
      reads this`nodes
    {
      if v == [] then p == q
      else InNode(v[0]) && v[0].Offset(base) == p && Tiles(v[1..], p + v[0].len, q)
    }

    ghost predicate InNode(s: Slice)
      reads this`nodes
    {
      && s.node.index < |nodes| && nodes[s.node.index] == s.node && s.node.size == base
      && s.len > 0 && s.off + s.len <= base
    }

    lemma {:induction false} TilesAppend(v: seq<Slice>, s: Slice, p: nat, q: nat)
      requires Tiles(v, p, q) && InNode(s) && s.Offset(base) == q
      ensures Tiles(v + [s], p, q + s.len)
    {
      if v == [] {
        assert v + [s] == [s] && [s][1..] == [];
      } else {
        TilesAppend(v[1..], s, p + v[0].len, q);
        assert (v + [s])[1..] == v[1..] + [s];
      }
    }

    lemma TilesHead(v: seq<Slice>, p: nat, q: nat)
      requires Tiles(v, p, q) && p < q
      ensures v != [] && InNode(v[0]) && v[0].Offset(base) == p && Tiles(v[1..], p + v[0].len, q)
    {
    }

    /** One more slice, of node number `i`; where that node ends. */
    lemma SliceFits(v: seq<Slice>, i: nat, c: Node, npos: nat, n: nat, p: nat, q: nat)
      requires Linked() && i < |nodes| && IsNode(c, i) && 0 < n && npos + n <= base
      requires Tiles(v, p, q) && Start(i, base) + npos == q
      ensures Tiles(v + [Slice(c, npos, n)], p, q + n)
      ensures Start(i + 1, base) == Start(i, base) + base <= capacity
      ensures i + 1 == |nodes| ==> Start(i + 1, base) == capacity
    {
      NodeIndex(c, i);
      TilesAppend(v, Slice(c, npos, n), p, q);
      StartMonotone(i + 1, |nodes|, base);
    }

    /** The loop of getWriteBuffers. */
    method Slices(ghost i0: nat, c0: Node, npos0: nat, len: nat)
      returns (ok: bool, v: seq<Slice>)
      requires Linked() && i0 < |nodes| && IsNode(c0, i0) && npos0 < base && len > 0
      ensures ok <==> capacity - Start(i0, base) - npos0 >= len
      ensures ok ==> Tiles(v, Start(i0, base) + npos0, Start(i0, base) + npos0 + len)
    {
      ghost var p := Start(i0, base) + npos0;
      var c: Node?, npos: nat, ncap: nat := c0, npos0, c0.size - npos0;
      var left: nat := len;
      ghost var i: nat := i0;
      v := [];
      assert Tiles(v, p, p);
      hide Linked, Chain, Stored, Tiles, Start;
      while left > ncap
        invariant 0 < left <= len && i < |nodes| && IsNode(c, i)
        invariant Start(i, base) + npos == p + (len - left) && npos < base && npos + ncap == base
        invariant Tiles(v, p, p + (len - left))
        decreases left
      {
        SliceFits(v, i, c, npos, ncap, p, p + (len - left));
        v, left := v + [Slice(c, npos, ncap)], left - ncap;
        NextNode(c, i);
        c := c.next;
        i := i + 1;
        if c == null {
          return false, [];
        }
        ncap, npos := c.size, 0;
      }
      SliceFits(v, i, c, npos, left, p, p + (len - left));
      v := v + [Slice(c, npos, left)];
      ok := true;
    }

    method GetWriteBuffers(len: nat) returns (ok: bool, v: seq<Slice>)
      requires Valid()
      modifies this, cells, store
      ensures fresh(cells - old(cells)) && fresh(store - old(store))
      ensures ok <==> Fits(base, old(capacity - position), len)
      ensures Valid() && View() == old(View()).(mem := mem) && old(mem) <= mem
      ensures littleEndian == old(littleEndian)
      ensures ok ==> position + len <= capacity && Tiles(v, position, position + len)
    {
      if len == 0 {
        return true, [];
      }
      AddCapacity(len);
      var c, npos := Here();
      ok, v := Slices(at, c, npos, len);
    }

    /** The kernel fills the slices in order with the received bytes. */
    method Receive(v: seq<Slice>, ghost p: nat, ghost q: nat, s: seq<byte>)
      requires Linked() && Tiles(v, p, q) && p + |s| <= q <= capacity
      modifies this`mem, this`blocks, store
      ensures Linked() && mem == Splice(old(mem), p, s)
    {
      LinkedSize();
      ghost var mem0 := mem;
      FilledNone(mem, p, s);
      hide Linked, Chain, Stored, Filled, Splice, Tiles;
      var rest, b: nat := v, 0;
      while b < |s|
        invariant Linked() && Filled(mem, mem0, p, s, b)
        invariant b <= |s| && (b < |s| ==> Tiles(rest, p + b, q))
        decreases |s| - b
      {
        TilesHead(rest, p + b, q);
        var t := rest[0];
        var n := Min(t.len, |s| - b);
        FillStep(t.node.index, t.node, t.off, mem0, p, s, b, n);
        b, rest := b + n, rest[1..];
      }
      FilledAll(mem, mem0, p, s);
    }

    // ----- files ---------------------------------------------------------

    /** One chunk of the loop of writeToFile. `ok` is false where it steps onto a null
        node or asks the stream for a negative number of bytes. */
    method FileTurn(ghost i: nat, c: Node?, pos: nat, readSize: int, ghost good: bool)
      returns (ok: bool, t: seq<byte>)
      requires Linked() && readSize > 0 && i <= |nodes| && IsNode(c, i)
      requires good ==> FileStep(base, i, |nodes|, pos, readSize)
      requires !good ==> FileStuck(base, pos, readSize)
      ensures good ==> ok && |t| <= readSize && Taken(t, mem, pos)
      ensures ok ==> c != null && i < |nodes|
      ensures good ==> FileStep(base, i + 1, |nodes|, pos + |t|, readSize - |t|)
      ensures ok && !good ==> FileStuck(base, pos + |t|, readSize - |t|)
    {
      LinkedSize();
      hide Linked, Chain, Stored, FileStep, FileStuck;
      t := [];
      var diff := pos % base;
      var len := (if readSize > base then base else readSize) - diff;
      if good {
        FileStepGood(pos, base, i, readSize, len, |nodes|);
      } else {
        FileStepBad(pos, base, readSize, len);
      }
      if c == null || len < 0 {
        return false, [];
      }
      t := FromNode(i, c, diff, len);
      ok := true;
    }

    /** The chunk loop of writeToFile, from node `c0` on. */
    method FileLoop(ghost i0: nat, c0: Node, ghost good: bool) returns (ok: bool, chunks: seq<seq<byte>>)
      requires Linked() && position < size <= capacity && i0 < |nodes| && IsNode(c0, i0)
      requires good ==> FileStep(base, i0, |nodes|, position, size - position)
      requires !good ==> FileStuck(base, position, size - position)
      ensures ok <==> good
      ensures ok ==> |mem| == capacity && Flatten(chunks) == mem[position..size]
    {
      LinkedSize();
      FlattenNone();
      var c: Node?, readSize: int, pos: nat := c0, size - position, position;
      ghost var i: nat := i0;
      chunks := [];
      assert Emitted(chunks, mem, position, pos);
      hide Linked, Chain, Stored, FileStep, FileStuck, Emitted;
      while readSize > 0
        invariant i <= |nodes| && IsNode(c, i)
        invariant !good ==> FileStuck(base, pos, readSize)
        invariant good ==> position <= pos <= size && readSize == size - pos
        invariant good ==> FileStep(base, i, |nodes|, pos, readSize) && Emitted(chunks, mem, position, pos)
        decreases |nodes| - i
      {
        var t;
        ok, t := FileTurn(i, c, pos, readSize, good);
        if !ok {
          return;
        }
        if good { EmittedMore(chunks, mem, position, pos, t); }
        chunks := chunks + [t];
        NextNode(c, i);
        c := c.next;
        i, pos, readSize := i + 1, pos + |t|, readSize - |t|;
      }
      FileEnd(base, pos, readSize);
      if good { EmittedAll(chunks, mem, position, pos); }
      ok := true;
    }

    method WriteToFile() returns (ok: bool, chunks: seq<seq<byte>>)
      requires Valid()
      ensures ok <==> FileSafe(View())
      ensures ok ==> Flatten(chunks) == View().Unread()
    {
      if size - position == 0 {
        return true, [];
      }
      var c, npos := Here();
      LocateUnique(position, base, at, npos);
      ok, chunks := FileLoop(at, c, FileSafe(View()));
    }

    /** One write of a run of writes that began in `f` and wrote `done` so far. */
    method WriteMore(t: seq<byte>, ghost f: Flat, ghost done: seq<byte>) returns (ok: bool)
      requires Valid() && f.Ok() && Wrote(f, done, View())
      modifies this, cells, store
      ensures fresh(cells - old(cells)) && fresh(store - old(store))
      ensures ok <==> Fits(base, old(capacity - position), |t|)
      ensures ok ==> Valid() && Wrote(f, done + t, View()) && position == old(position) + |t|
      ensures ok ==> capacity == CapacityAfter(base, old(capacity), old(position), |t|)
    {
      ghost var g := View();
      ValidView();
      ok := Write(t);
      if ok {
        assert Wrote(g, t, View());
        hide Valid, Fits, CapacityAfter;
        WroteWrote(f, done, g, t, View());
        assert position == g.pos + |t|;
      }
    }

    /** One block of the loop of readFromFile, `b` bytes into the file. */
    method ReadBlock(file: seq<byte>, b: nat, ghost f: Flat) returns (ok: bool, n: nat)
      requires Valid() && b <= |file| && f.Ok() && Wrote(f, file[..b], View())
      modifies this, cells, store
      ensures fresh(cells - old(cells)) && fresh(store - old(store))
      ensures n == Min(base, |file| - b)
      ensures ok ==> Valid() && Wrote(f, file[..b + n], View())
      ensures old(FileFits(base, capacity, position, |file| - b)) <==>
              ok && (n < base || FileFits(base, capacity, position, |file| - b - n))
    {
      ValidView();
      n := Min(base, |file| - b);
      FileFitsStep(base, capacity, position, |file| - b);
      Slice2(file, b, n);
      hide Wrote, Fits, FileFits, CapacityAfter, Valid;
      ok := WriteMore(file[b..b + n], f, file[..b]);
      if ok {
        ValidView();
      }
    }

    /** The loop of readFromFile: blocks of `base` bytes until the stream ends. */
    method ReadFromFile(file: seq<byte>) returns (ok: bool)
      requires Valid()
      modifies this, cells, store
      ensures fresh(cells - old(cells)) && fresh(store - old(store))
      ensures ok <==> FileFits(base, old(capacity), old(position), |file|)
      ensures ok ==> Valid() && Wrote(old(View()), file, View())
    {
      ValidView();
      ghost var f := View();
      WroteNothing(f);
      assert file[..0] == [] && file[..|file|] == file;
      hide Wrote, FileFits, Valid;
      var b: nat, eof := 0, false;
      while !eof
        invariant Valid() && fresh(cells - old(cells)) && fresh(store - old(store))
        invariant b <= |file| && Wrote(f, file[..b], View()) && (eof ==> b == |file|)
        invariant old(FileFits(base, capacity, position, |file|)) <==>
                  eof || FileFits(base, capacity, position, |file| - b)
        decreases !eof, |file| - b
      {
        var n;
        ok, n := ReadBlock(file, b, f);
        if !ok {
          return;
        }
        b, eof := b + n, n < base;
      }
      ok := true;
    }
  }

  /** The chunks are the bytes of `mem` from `a` to `b`. */
  ghost predicate Emitted(chunks: seq<seq<byte>>, mem: seq<byte>, a: nat, b: nat)
  {
    a <= b <= |mem| && Flatten(chunks) == mem[a..b]
  }

  lemma EmittedMore(chunks: seq<seq<byte>>, mem: seq<byte>, a: nat, b: nat, t: seq<byte>)
    requires Emitted(chunks, mem, a, b) && Taken(t, mem, b)
    ensures Emitted(chunks + [t], mem, a, b + |t|)
  {
    FlattenSlice(chunks, mem, a, b, b + |t|);
  }

  lemma EmittedAll(chunks: seq<seq<byte>>, mem: seq<byte>, a: nat, b: nat)
    requires Emitted(chunks, mem, a, b)
    ensures a <= b <= |mem| && Flatten(chunks) == mem[a..b]
  {
  }

  /** Does every block of the file fit when it is written? */
  ghost predicate FileFits(base: nat, capacity: nat, pos: nat, n: nat)
  {
    base > 0 && pos <= capacity && FitsRun(base, capacity, pos, FileBlocks(base, n))
  }

  lemma FileFitsStep(base: nat, capacity: nat, pos: nat, n: nat)
    requires base > 0 && pos <= capacity
    ensures
      var m := Min(base, n);
      FileFits(base, capacity, pos, n) <==>
      Fits(base, capacity - pos, m)
      && (m < base || FileFits(base, CapacityAfter(base, capacity, pos, m), pos + m, n - m))
  {
    FitsFileStep(base, capacity, pos, n);
    hide Fits, FitsRun, FileBlocks, CapacityAfter;
  }

  lemma Slice2(s: seq<byte>, b: nat, n: nat)
    requires b + n <= |s|
    ensures |s[b..b + n]| == n && s[..b] + s[b..b + n] == s[..b + n]
  {
  }

  /** One iovec: `len` bytes of a node from offset `off` on. */
  datatype Slice = Slice(node: Node, off: nat, len: nat)
  {
    ghost function Offset(base: nat): nat { Start(node.index, base) + off }
  }
}
