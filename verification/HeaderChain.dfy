/** core/headerchain.go: writing headers and following ancestors. */
module HeaderChain {
  import opened Chain

  datatype Status = NonStatTy | CanonStatTy | SideStatTy

  class HeaderChain {
    var headers: Store
    var tds: Tds
    var canon: Index
    var current: Header
    const genesis: Header

    /** Runs from genesis: the index is defined exactly up to the head and is the head's
        path, and no stored header is heavier than the head. */
    ghost predicate Valid()
      reads this
    {
      && Tree(headers, tds, genesis)
      && KeyOf(current) in headers && headers[KeyOf(current)] == current
      && Canonical(headers, canon, current)
      && (forall n: nat :: n in canon <==> n <= current.number)
      && forall k :: k in tds ==> tds[k] <= CurrentTd()
    }

    constructor (g: Header, td: int)
      requires g.number == 0 && g.hash != EMPTY
      ensures Valid() && current == g && genesis == g && headers == map[KeyOf(g) := g]
    {
      genesis := g;
      headers := map[KeyOf(g) := g];
      tds := map[KeyOf(g) := td];
      canon := map[0 := g.hash];
      current := g;
    }

    function CurrentTd(): int
      requires KeyOf(current) in tds
      reads this
    {
      tds[KeyOf(current)]
    }

    /** ReadCanonicalHash: the zero hash where the index has no entry. */
    function CanonicalHash(n: nat): Hash
      reads this
    {
      if n in canon then canon[n] else EMPTY
    }

    /** WriteHeader. `coin` is the random draw between equal total difficulties. */
    method WriteHeader(header: Header, coin: bool) returns (status: Status)
      requires Valid()
      requires header.hash != EMPTY && header.number < MAX_UINT64
      requires forall k :: k in headers && k.hash == header.hash ==> headers[k] == header
      modifies this
      ensures Valid()
      ensures status == NonStatTy <==> ParentKey(header) !in old(tds)
      ensures status == NonStatTy ==> headers == old(headers) && current == old(current)
      ensures status != NonStatTy ==> headers == old(headers)[KeyOf(header) := header]
      ensures status == CanonStatTy ==> current == header
      ensures status != CanonStatTy ==> current == old(current) && canon == old(canon)
      ensures status != NonStatTy ==>
                tds == old(tds)[KeyOf(header) := old(tds)[ParentKey(header)] + header.difficulty]
      ensures status != NonStatTy ==>
                (status == CanonStatTy <==> tds[KeyOf(header)] > old(CurrentTd())
                                            || (tds[KeyOf(header)] == old(CurrentTd()) && coin))
      ensures CurrentTd() >= old(CurrentTd())
    {
      var number := header.number;
      if ParentKey(header) !in tds {
        return NonStatTy;
      }
      var ptd := tds[ParentKey(header)];
      var localTd := tds[KeyOf(current)];
      var externTd := header.difficulty + ptd;
      AddHeader(headers, tds, genesis, header);
      PathGrows(headers, headers[KeyOf(header) := header], canon, 0, current.number);
      tds := tds[KeyOf(header) := externTd];
      headers := headers[KeyOf(header) := header];
      if externTd > localTd || (externTd == localTd && coin) {
        Reroute(header);
        status := CanonStatTy;
      } else {
        status := SideStatTy;
      }
    }

    /** Make a stored header the head: the index becomes its path. */
    method Reroute(header: Header)
      requires Tree(headers, tds, genesis) && header.number > 0 && ParentKey(header) in headers
      requires KeyOf(header) in headers && headers[KeyOf(header)] == header
      requires Path(headers, canon, 0, current.number) && forall n: nat :: n in canon <==> n <= current.number
      modifies `canon, `current
      ensures current == header && Canonical(headers, canon, header)
      ensures forall n: nat :: n in canon <==> n <= header.number
    {
      var number := header.number;
      ghost var top := if current.number <= number then current.number else number;
      PathPrefix(headers, canon, 0, top, current.number);
      DeleteAbove(number + 1, current.number);
      PathSame(headers, old(canon), canon, 0, top);
      RewriteBelow(header, top);
      PathUp(headers, canon, header);
      forall n: nat | n < number ensures n in canon { assert On(headers, canon, n); }
      canon := canon[number := header.hash];
      current := header;
    }

    /** Delete the number assignments from `from` on, up to the first gap. */
    method DeleteAbove(from: nat, ghost top: nat)
      requires forall n: nat :: n in canon <==> n <= top
      modifies `canon
      ensures forall n: nat :: n in canon <==> n <= top && n < from
      ensures forall n: nat :: n in canon ==> canon[n] == old(canon)[n]
    {
      var i := from;
      while i in canon
        invariant from <= i && (from <= top ==> i <= top + 1)
        invariant forall n: nat :: n in canon <==> n <= top && !(from <= n < i)
        invariant forall n: nat :: n in canon ==> n in old(canon) && canon[n] == old(canon)[n]
        decreases |canon|
      {
        var next := canon - {i};
        assert next.Keys == canon.Keys - {i};
        canon := next;
        i := i + 1;
      }
    }

    /** Overwrite stale number assignments below a header, down to the first one that is
        already on its path. */
    method RewriteBelow(header: Header, ghost top: nat)
      requires Tree(headers, tds, genesis) && header.number > 0 && ParentKey(header) in headers
      requires Path(headers, canon, 0, top) && top <= header.number
      requires forall n: nat :: n in canon <==> n <= top
      modifies `canon
      ensures Path(headers, canon, 0, header.number - 1)
      ensures header.number - 1 in canon && canon[header.number - 1] == header.parent
      ensures forall n: nat :: n in canon ==> n <= header.number
    {
      var hash, number: nat := header.parent, header.number - 1;
      BottomIsGenesis(headers, tds, genesis, canon);
      while CanonicalHash(number) != hash
        invariant number < header.number && Key(hash, number) in headers
        invariant forall n: nat :: n <= number ==> (n in canon <==> n <= top) && (n in canon ==> canon[n] == old(canon)[n])
        invariant number < header.number - 1 ==> Path(headers, canon, number + 1, header.number - 1)
        invariant if number == header.number - 1 then hash == header.parent
                  else header.number - 1 in canon && canon[header.number - 1] == header.parent
                       && On(headers, canon, number + 1) && headers[Key(canon[number + 1], number + 1)].parent == hash
        invariant forall n: nat :: n in canon ==> n <= header.number
        decreases number
      {
        assert Linked(headers, tds, genesis, Key(hash, number));
        assert 0 in canon && canon[0] == genesis.hash;
        if number < header.number - 1 { PathDown(headers, canon, number, hash, header.number - 1); }
        canon := canon[number := hash];
        var h := headers[Key(hash, number)];
        hash, number := h.parent, h.number - 1;
      }
      assert Linked(headers, tds, genesis, Key(hash, number));
      assert number in canon && canon[number] == hash;
      assert Path(headers, canon, 0, number) by {
        PathPrefix(headers, old(canon), 0, number, top);
        PathSame(headers, old(canon), canon, 0, number);
      }
      if number < header.number - 1 {
        assert Steps(headers, canon, number);
        PathJoin(headers, canon, 0, number, header.number - 1);
      }
    }

    /** InsertHeaderChain: headers already stored are skipped, and the first one whose
        parent is unknown stops the import. */
    method InsertHeaderChain(chain: seq<Header>, coins: seq<bool>) returns (failed: nat, ok: bool)
      requires Valid() && |coins| == |chain|
      requires forall i :: 0 <= i < |chain| ==> chain[i].hash != EMPTY && chain[i].number < MAX_UINT64
      requires forall i, k :: 0 <= i < |chain| && k in headers && k.hash == chain[i].hash ==> headers[k] == chain[i]
      requires forall i, j :: 0 <= i < |chain| && 0 <= j < |chain| && chain[i].hash == chain[j].hash ==> chain[i] == chain[j]
      modifies this
      ensures Valid() && Extends(old(headers), headers) && CurrentTd() >= old(CurrentTd())
      ensures var n := if ok then |chain| else failed;
              n <= |chain| && forall i :: 0 <= i < n ==> KeyOf(chain[i]) in headers
      ensures !ok ==> failed < |chain| && ParentKey(chain[failed]) !in headers && KeyOf(chain[failed]) !in headers
      // Nothing else is stored, and the head is the old one or a header of the batch; at equal
      // difficulty only a draw replaces it.
      ensures Imported(old(headers), chain, if ok then |chain| else failed, headers)
      ensures current == old(current) || FromBatch(old(headers), chain, coins, |chain|, current, CurrentTd() > old(CurrentTd()))
    {
      ok := true;
      for i := 0 to |chain|
        invariant ok && Valid() && Extends(old(headers), headers) && CurrentTd() >= old(CurrentTd())
        invariant forall j :: 0 <= j < i ==> KeyOf(chain[j]) in headers
        invariant Imported(old(headers), chain, i, headers)
        invariant current == old(current) || FromBatch(old(headers), chain, coins, i, current, CurrentTd() > old(CurrentTd()))
        invariant forall j, k :: 0 <= j < |chain| && k in headers && k.hash == chain[j].hash ==> headers[k] == chain[j]
      {
        ghost var was := headers;
        if KeyOf(chain[i]) !in headers {
          var status := WriteHeader(chain[i], coins[i]);
          if status == NonStatTy {
            return i, false;
          }
        }
        ImportedStep(old(headers), chain, i, was, headers);
      }
      failed := 0;
    }

    /** GetAncestor. `max` limits the non-canonical blocks walked; `left` is what remains. */
    method GetAncestor(hash: Hash, number: nat, ancestor: nat, max: nat)
      returns (rhash: Hash, rnumber: nat, left: nat)
      requires Valid()
      ensures ancestor > number ==> rhash == EMPTY && rnumber == 0 && left == max
      // A stored block: the block that many parent links up, or nothing if too many
      // blocks on the way are off the index. A single step never counts.
      ensures ancestor <= number && Key(hash, number) in headers ==>
                var cost := if ancestor == 1 then 0 else Detour(headers, canon, Key(hash, number), ancestor);
                if cost <= max then Key(rhash, rnumber) == Walk(headers, Key(hash, number), ancestor) && left == max - cost
                else rhash == EMPTY && rnumber == 0 && left == 0
      // An unknown block is its own ancestor 0 and has no other.
      ensures ancestor == 0 ==> rhash == hash && rnumber == number && left == max
      ensures 0 < ancestor <= number && Key(hash, number) !in headers && (hash != EMPTY || number in canon || ancestor == 1) ==>
                rhash == EMPTY && rnumber == 0
      // The zero hash counts as canonical where the index has no entry.
      ensures 1 < ancestor <= number && hash == EMPTY && number !in canon ==>
                rhash == CanonicalHash(number - ancestor) && rnumber == number - ancestor && left == max
    {
      left := max;
      if ancestor > number {
        return EMPTY, 0, left;
      }
      if ancestor == 1 {
        if Key(hash, number) in headers {
          assert Linked(headers, tds, genesis, Key(hash, number));
          return headers[Key(hash, number)].parent, number - 1, left;
        }
        return EMPTY, 0, left;
      }
      if Key(hash, number) in headers { assert Linked(headers, tds, genesis, Key(hash, number)); }
      rhash, rnumber := hash, number;
      var anc: nat := ancestor;
      while anc != 0
        invariant anc <= rnumber && anc <= ancestor && left <= max && rnumber <= number
        invariant anc < ancestor ==> Key(hash, number) in headers
        invariant anc == ancestor ==> rhash == hash && rnumber == number && left == max
        invariant Key(hash, number) in headers ==>
                    && Key(rhash, rnumber) in headers
                    && Walk(headers, Key(hash, number), ancestor) == Walk(headers, Key(rhash, rnumber), anc)
                    && Detour(headers, canon, Key(hash, number), ancestor)
                       == max - left + Detour(headers, canon, Key(rhash, rnumber), anc)
      {
        IndexEntries(rnumber);
        if CanonicalHash(rnumber) == rhash {
          if Key(rhash, rnumber) in headers {
            assert Linked(headers, tds, genesis, Key(rhash, rnumber));
            PathPrefix(headers, canon, 0, rnumber, current.number);
            PathIsWalk(headers, canon, 0, rnumber, anc);
          }
          return CanonicalHash(rnumber - anc), rnumber - anc, left;
        }
        if left == 0 {
          return EMPTY, 0, left;
        }
        left, anc := left - 1, anc - 1;
        if Key(rhash, rnumber) !in headers {
          return EMPTY, 0, left;
        }
        assert Linked(headers, tds, genesis, Key(rhash, rnumber));
        rhash, rnumber := headers[Key(rhash, rnumber)].parent, rnumber - 1;
      }
    }

    lemma IndexEntries(n: nat)
      requires Valid()
      ensures n in canon ==> On(headers, canon, n) && canon[n] != EMPTY
    {
      if n in canon {
        assert On(headers, canon, n);
        assert Linked(headers, tds, genesis, Key(canon[n], n));
      }
    }
  }

  /** Every header stored since is one of the first `n` of the batch. */
  ghost predicate Imported(before: Store, chain: seq<Header>, n: nat, now: Store) {
    forall k {:trigger Batched(chain, n, k)} :: k in now && k !in before ==> Batched(chain, n, k)
  }

  ghost predicate Batched(chain: seq<Header>, n: nat, k: Key) {
    exists i :: 0 <= i < |chain| && i < n && k == KeyOf(chain[i])
  }

  /** The head is one of them that was new, and it is heavier or the draw decided. */
  ghost predicate FromBatch(before: Store, chain: seq<Header>, coins: seq<bool>, n: nat, head: Header, heavier: bool)
    requires |coins| == |chain|
  {
    exists i :: 0 <= i < |chain| && i < n && head == chain[i] && KeyOf(head) !in before && (coins[i] || heavier)
  }

  lemma ImportedStep(before: Store, chain: seq<Header>, i: nat, was: Store, now: Store)
    requires i < |chain| && Imported(before, chain, i, was)
    ensures Imported(before, chain, i + 1, was)
    ensures now == was[KeyOf(chain[i]) := chain[i]] ==> Imported(before, chain, i + 1, now)
  {
    forall k ensures k in was && k !in before ==> Batched(chain, i + 1, k)
             ensures k == KeyOf(chain[i]) ==> Batched(chain, i + 1, k) {
      assert k in was && k !in before ==> Batched(chain, i, k);
    }
  }

  /** Blocks walked before the index is met, within `n` steps. */
  ghost function Detour(store: Store, canon: Index, k: Key, n: nat): nat
    requires n <= k.number
    decreases n
  {
    if n == 0 || (k.number in canon && canon[k.number] == k.hash) then 0
    else 1 + Detour(store, canon, Key(if k in store then store[k].parent else EMPTY, k.number - 1), n - 1)
  }
}
