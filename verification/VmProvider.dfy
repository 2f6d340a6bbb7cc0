/** VM identifiers: how the provider picks context ids, and its register of VMs. */
module VmProvider {
  import opened Basics
  import opened Transactions

  /** Context ids are 32 bits wide and wrap around; 0, 1 and 2 are reserved. */
  const CidSpace: nat := 0x1_0000_0000
  const FirstCid: nat := 3

  datatype VmEntry = VmEntry(tx: Hash, program: Hash)

  datatype Provider = Provider(nextCid: nat, cids: set<nat>, registry: map<nat, VmEntry>)

  predicate Usable(cids: set<nat>, c: nat) {
    FirstCid <= c < CidSpace && c !in cids
  }

  function Cyclic(start: nat, k: nat): nat {
    (start + k) % CidSpace
  }

  /** `c` is the first usable id when counting up from `start` with wrap-around. */
  ghost predicate FirstFree(start: nat, cids: set<nat>, c: nat) {
    exists k: nat :: FirstFreeAt(start, cids, k) && c == Cyclic(start, k)
  }

  ghost predicate FirstFreeAt(start: nat, cids: set<nat>, k: nat) {
    Usable(cids, Cyclic(start, k)) && forall j: nat :: j < k ==> !Usable(cids, Cyclic(start, j))
  }

  ghost predicate HasRoom(cids: set<nat>) {
    exists c :: Usable(cids, c)
  }

  /** A set with fewer members than a range has numbers misses one of them. */
  lemma {:induction false} RangeNotCovered(a: nat, b: nat, taken: set<nat>) returns (c: nat)
    requires a <= b && |taken| < b - a
    ensures a <= c < b && c !in taken
    decreases b
  {
    if b - 1 in taken {
      c := RangeNotCovered(a, b - 1, taken - {b - 1});
    } else {
      c := b - 1;
    }
  }

  /** Fewer ids taken than there are leaves one free. */
  lemma FewTakenHasRoom(cids: set<nat>)
    requires |cids| < CidSpace - FirstCid
    ensures HasRoom(cids)
  {
    var c := RangeNotCovered(FirstCid, CidSpace, cids);
    assert Usable(cids, c);
  }

  lemma {:induction false} LeastFree(start: nat, cids: set<nat>, k: nat)
    requires Usable(cids, Cyclic(start, k))
    ensures exists n: nat :: n <= k && FirstFreeAt(start, cids, n)
  {
    if j: nat :| j < k && Usable(cids, Cyclic(start, j)) {
      LeastFree(start, cids, j);
    } else {
      assert FirstFreeAt(start, cids, k);
    }
  }

  /** Counting once round reaches every id. */
  lemma CyclicReaches(start: nat, c: nat) returns (k: nat)
    requires start < CidSpace && c < CidSpace
    ensures k < CidSpace && Cyclic(start, k) == c
  {
    k := if start <= c then c - start else c + CidSpace - start;
  }

  lemma FirstFreeExists(start: nat, cids: set<nat>) returns (n: nat)
    requires start < CidSpace && HasRoom(cids)
    ensures n < CidSpace && FirstFreeAt(start, cids, n)
  {
    var c :| Usable(cids, c);
    var k := CyclicReaches(start, c);
    LeastFree(start, cids, k);
    n :| n <= k && FirstFreeAt(start, cids, n);
  }

  lemma FirstFreeUnique(start: nat, cids: set<nat>, c: nat, d: nat)
    requires FirstFree(start, cids, c) && FirstFree(start, cids, d)
    ensures c == d
  {
  }

  ghost function FreshCid(p: Provider): nat
    requires p.nextCid < CidSpace && HasRoom(p.cids)
    ensures FirstFree(p.nextCid, p.cids, FreshCid(p)) && Usable(p.cids, FreshCid(p))
  {
    FirstFreeWitness(p);
    var c :| FirstFree(p.nextCid, p.cids, c);
    c
  }

  lemma FirstFreeWitness(p: Provider)
    requires p.nextCid < CidSpace && HasRoom(p.cids)
    ensures exists c :: FirstFree(p.nextCid, p.cids, c)
  {
    var n := FirstFreeExists(p.nextCid, p.cids);
    assert FirstFree(p.nextCid, p.cids, Cyclic(p.nextCid, n));
  }

  /** The unprivileged control port computed from a context id. */
  function QmpPort(cid: nat): nat {
    cid % 64512 + 1024
  }

  /** Ports are in range, and two ids share one exactly when they differ by a
      multiple of 64512, so never when they are closer than that. */
  lemma PortsDistinct(a: nat, b: nat)
    ensures 1024 <= QmpPort(a) <= 65535
    ensures QmpPort(a) == QmpPort(b) <==> (a - b) % 64512 == 0
    ensures a != b && -64512 < a - b < 64512 ==> QmpPort(a) != QmpPort(b)
  {
    var qa, qb := a / 64512, b / 64512;
    assert a == qa * 64512 + a % 64512 && b == qb * 64512 + b % 64512;
    if (a - b) % 64512 == 0 {
      var q := (a - b) / 64512;
      assert a - b == q * 64512;
    }
  }

  /** What is registered is exactly what is allocated, and all of it is in range. */
  ghost predicate Consistent(p: Provider) {
    && p.nextCid < CidSpace
    && p.cids == p.registry.Keys
    && forall c :: c in p.cids ==> FirstCid <= c < CidSpace
  }

  ghost function Register(p: Provider, tx: Hash, program: Hash): Provider
    requires p.nextCid < CidSpace && HasRoom(p.cids)
  {
    var c := FreshCid(p);
    Provider((c + 1) % CidSpace, p.cids + {c}, p.registry[c := VmEntry(tx, program)])
  }

  function Unregister(p: Provider, c: nat): Provider {
    p.(cids := p.cids - {c}, registry := p.registry - {c})
  }

  class Qemu {
    var nextCid: nat
    var cids: set<nat>
    var registry: map<nat, VmEntry>

    ghost function View(): Provider
      reads this
    {
      Provider(nextCid, cids, registry)
    }

    constructor ()
      ensures View() == Provider(4, {}, map[]) && Consistent(View())
    {
      nextCid := 4;
      cids := {};
      registry := map[];
    }

    /** Take the next id that is neither reserved nor in use. */
    method AllocateCid() returns (cid: nat)
      requires nextCid < CidSpace && HasRoom(cids)
      modifies this
      ensures cid == FreshCid(old(View()))
      ensures View() == old(View()).(nextCid := (cid + 1) % CidSpace, cids := old(cids) + {cid})
    {
      ghost var n := FirstFreeExists(nextCid, cids);
      ghost var k: nat := 0;
      while true
        invariant k <= n && nextCid == Cyclic(old(nextCid), k)
        invariant cids == old(cids) && registry == old(registry)
        decreases n - k
      {
        cid := nextCid;
        nextCid := (nextCid + 1) % CidSpace;
        CyclicNext(old(nextCid), k);
        if cid < FirstCid || cid in cids {
          assert !Usable(cids, Cyclic(old(nextCid), k));
          k := k + 1;
          continue;
        }
        assert Usable(cids, Cyclic(old(nextCid), k));
        assert k == n;
        assert FirstFree(old(nextCid), old(cids), cid);
        FirstFreeUnique(old(nextCid), old(cids), cid, FreshCid(old(View())));
        cids := cids + {cid};
        return;
      }
    }

    method ReleaseCid(cid: nat)
      modifies this
      ensures View() == if cid in old(cids) then Unregister(old(View()), cid) else old(View())
    {
      if cid in cids {
        cids := cids - {cid};
        registry := registry - {cid};
      }
    }

    /** Register the VM before it boots; the caller's `boot` says how that went. A VM
        that does not come up is taken out again unless killing it fails too. */
    method StartVm(tx: Hash, program: Hash, booted: bool, cleaned: bool) returns (cid: Option<nat>)
      requires Consistent(View()) && HasRoom(cids)
      modifies this
      ensures Consistent(View())
      ensures View() == if !booted && cleaned
                        then Unregister(Register(old(View()), tx, program), FreshCid(old(View())))
                        else Register(old(View()), tx, program)
      ensures cid == if booted then Some(FreshCid(old(View()))) else None
      ensures |cids| <= |old(cids)| + 1
    {
      var c := AllocateCid();
      registry := registry[c := VmEntry(tx, program)];
      if booted {
        return Some(c);
      }
      if cleaned {
        registry := registry - {c};
        cids := cids - {c};
      }
      return None;
    }

    /** Kill a registered VM and forget it; if killing fails it stays registered. */
    method StopVm(cid: nat, killed: bool) returns (ok: bool)
      requires cid in registry && Consistent(View())
      modifies this
      ensures ok == killed && Consistent(View())
      ensures View() == if killed then Unregister(old(View()), cid) else old(View())
    {
      if !killed {
        return false;
      }
      ReleaseCid(cid);
      registry := registry - {cid};
      return true;
    }

    method FindByReq(cid: nat) returns (vm: Option<VmEntry>)
      ensures vm == if cid in registry then Some(registry[cid]) else None
      ensures Consistent(View()) ==> (vm.Some? <==> cid in cids)
    {
      vm := if cid in registry then Some(registry[cid]) else None;
    }
  }

  lemma CyclicNext(start: nat, k: nat)
    ensures (Cyclic(start, k) + 1) % CidSpace == Cyclic(start, k + 1)
  {
  }
}
