/**
 Where the blocks of a file are recorded: six zones in the inode itself and two
 times eight in inodes that serve as tables.
 */
module FileZones {

  const NR_TZONES := 8
  const NR_DIRECT_ZONE := 6
  const MAX_ZONES := 22

  datatype Inode = Inode(size: nat, zones: seq<nat>)

  const NO_ZONES: seq<nat> := [0, 0, 0, 0, 0, 0, 0, 0]

  predicate Shaped(ns: seq<Inode>) {
    forall n :: 0 <= n < |ns| ==> |ns[n].zones| == NR_TZONES
  }

  /** Block idx of file f, or 0. */
  function ZoneOf(ns: seq<Inode>, f: nat, idx: nat): nat
    requires Shaped(ns) && f < |ns|
  {
    if idx >= MAX_ZONES then 0
    else if idx < NR_DIRECT_ZONE then ns[f].zones[idx]
    else
      var j := ns[f].zones[TableOf(idx)];
      if 0 < j < |ns| then ns[j].zones[SlotOf(idx)] else 0
  }

  /** The zone of the inode that holds the table for block idx, and the place in the table. */
  function TableOf(idx: nat): (t: nat)
    requires NR_DIRECT_ZONE <= idx < MAX_ZONES
    ensures NR_DIRECT_ZONE <= t < NR_TZONES
  {
    NR_DIRECT_ZONE + (idx - NR_DIRECT_ZONE) / NR_TZONES
  }

  function SlotOf(idx: nat): (s: nat)
    requires NR_DIRECT_ZONE <= idx < MAX_ZONES
    ensures s < NR_TZONES
  {
    (idx - NR_DIRECT_ZONE) % NR_TZONES
  }

  lemma SlotsDiffer(idx: nat, idx': nat)
    requires NR_DIRECT_ZONE <= idx < MAX_ZONES && NR_DIRECT_ZONE <= idx' < MAX_ZONES && idx != idx'
    ensures TableOf(idx) != TableOf(idx') || SlotOf(idx) != SlotOf(idx')
  {
  }

  function ZoneAt(z: seq<nat>, idx: nat): nat {
    if idx < |z| then z[idx] else 0
  }

  ghost predicate Recorded(ns: seq<Inode>, f: nat, z: seq<nat>)
    requires Shaped(ns) && f < |ns|
  {
    |z| <= MAX_ZONES && forall idx :: 0 <= idx < MAX_ZONES ==> ZoneOf(ns, f, idx) == ZoneAt(z, idx)
  }

  ghost predicate TablesHeld(ns: seq<Inode>, f: nat, holder: map<nat, (nat, nat)>)
    requires Shaped(ns) && f < |ns|
  {
    forall t :: NR_DIRECT_ZONE <= t < NR_TZONES && ns[f].zones[t] != 0 ==>
      ns[f].zones[t] in holder && holder[ns[f].zones[t]] == (f, t)
  }

  /**
   zs: the blocks of each file; holder: the file and zone that each table
   belongs to; inums: the inode numbers in use.
   */
  ghost predicate Tables(ns: seq<Inode>, zs: map<nat, seq<nat>>, holder: map<nat, (nat, nat)>, inums: set<int>) {
    && Shaped(ns)
    && (forall f :: f in zs ==> 0 < f < |ns| && f in inums)
    && (forall j :: j in holder ==> 0 < j < |ns| && j in inums && j !in zs)
    && (forall f :: f in zs ==> TablesHeld(ns, f, holder) && Recorded(ns, f, zs[f]))
  }

  lemma OtherFile(ns: seq<Inode>, j: nat, n: Inode, f: nat, z: seq<nat>, holder: map<nat, (nat, nat)>)
    requires Shaped(ns) && f < |ns| && 0 < j < |ns| && f != j && |n.zones| == NR_TZONES
    requires TablesHeld(ns, f, holder) && Recorded(ns, f, z) && (j in holder ==> holder[j].0 != f)
    ensures Shaped(ns[j := n]) && TablesHeld(ns[j := n], f, holder) && Recorded(ns[j := n], f, z)
  {
  }

  /** A new size changes no block. */
  lemma Resized(ns: seq<Inode>, zs: map<nat, seq<nat>>, holder: map<nat, (nat, nat)>, inums: set<int>, f: nat,
                size: nat)
    requires Tables(ns, zs, holder, inums) && f in zs
    ensures Tables(ns[f := ns[f].(size := size)], zs, holder, inums)
  {
  }

  /** An inode that was free becomes an empty table of file f. */
  lemma NewTable(ns: seq<Inode>, zs: map<nat, seq<nat>>, holder: map<nat, (nat, nat)>, inums: set<int>, f: nat,
                 t: nat, j: nat)
    requires Tables(ns, zs, holder, inums) && f in zs && NR_DIRECT_ZONE <= t < NR_TZONES && ns[f].zones[t] == 0
    requires 0 < j < |ns| && j !in inums
    ensures var ns1 := ns[j := Inode(0, NO_ZONES)];
            Tables(ns1[f := ns1[f].(zones := ns1[f].zones[t := j])], zs, holder[j := (f, t)], inums + {j})
  {
    var ns1 := ns[j := Inode(0, NO_ZONES)];
    var ns' := ns1[f := ns1[f].(zones := ns1[f].zones[t := j])];
    var holder' := holder[j := (f, t)];
    forall g | g in zs ensures TablesHeld(ns', g, holder') && Recorded(ns', g, zs[g]) {
      OtherFile(ns, j, Inode(0, NO_ZONES), g, zs[g], holder);
      if g != f {
        OtherFile(ns1, f, ns'[f], g, zs[g], holder);
      } else {
        forall idx | 0 <= idx < MAX_ZONES ensures ZoneOf(ns', f, idx) == ZoneOf(ns, f, idx) {
        }
      }
    }
  }

  /** Block b becomes the next block of file f, recorded in the inode itself. */
  lemma NewDirect(ns: seq<Inode>, zs: map<nat, seq<nat>>, holder: map<nat, (nat, nat)>, inums: set<int>, f: nat, b: nat)
    requires Tables(ns, zs, holder, inums) && f in zs && |zs[f]| < NR_DIRECT_ZONE
    ensures Tables(ns[f := ns[f].(zones := ns[f].zones[|zs[f]| := b])], zs[f := zs[f] + [b]], holder, inums)
  {
    var k := |zs[f]|;
    var ns', zs' := ns[f := ns[f].(zones := ns[f].zones[k := b])], zs[f := zs[f] + [b]];
    forall g | g in zs' ensures TablesHeld(ns', g, holder) && Recorded(ns', g, zs'[g]) {
      if g != f {
        OtherFile(ns, f, ns'[f], g, zs[g], holder);
      } else {
        forall idx | 0 <= idx < MAX_ZONES ensures ZoneOf(ns', f, idx) == ZoneAt(zs'[f], idx) {
          assert ZoneOf(ns, f, idx) == ZoneAt(zs[f], idx);
        }
      }
    }
  }

  /** Block b becomes the next block of file f, recorded in a table. */
  lemma NewIndirect(ns: seq<Inode>, zs: map<nat, seq<nat>>, holder: map<nat, (nat, nat)>, inums: set<int>, f: nat,
                    b: nat)
    requires Tables(ns, zs, holder, inums) && f in zs && NR_DIRECT_ZONE <= |zs[f]| < MAX_ZONES
    requires ns[f].zones[TableOf(|zs[f]|)] != 0
    ensures var j, s := ns[f].zones[TableOf(|zs[f]|)], SlotOf(|zs[f]|);
            j < |ns| && Tables(ns[j := ns[j].(zones := ns[j].zones[s := b])], zs[f := zs[f] + [b]], holder, inums)
  {
    var k := |zs[f]|;
    var j, s := ns[f].zones[TableOf(k)], SlotOf(k);
    assert TablesHeld(ns, f, holder);
    var ns', zs' := ns[j := ns[j].(zones := ns[j].zones[s := b])], zs[f := zs[f] + [b]];
    forall g | g in zs' ensures TablesHeld(ns', g, holder) && Recorded(ns', g, zs'[g]) {
      if g != f {
        OtherFile(ns, j, ns'[j], g, zs[g], holder);
      } else {
        forall idx | 0 <= idx < MAX_ZONES ensures ZoneOf(ns', f, idx) == ZoneAt(zs'[f], idx) {
          assert ZoneOf(ns, f, idx) == ZoneAt(zs[f], idx);
          if idx != k && idx >= NR_DIRECT_ZONE {
            SlotsDiffer(idx, k);
          }
        }
      }
    }
  }

  /** The inodes once block b is recorded as block idx of file f. */
  function Link(ns: seq<Inode>, f: nat, idx: nat, b: nat): seq<Inode>
    requires Shaped(ns) && f < |ns| && idx < MAX_ZONES
    requires idx >= NR_DIRECT_ZONE ==> ns[f].zones[TableOf(idx)] < |ns|
  {
    if idx < NR_DIRECT_ZONE then ns[f := ns[f].(zones := ns[f].zones[idx := b])]
    else
      var j := ns[f].zones[TableOf(idx)];
      ns[j := ns[j].(zones := ns[j].zones[SlotOf(idx) := b])]
  }

  lemma LinkOk(ns: seq<Inode>, zs: map<nat, seq<nat>>, holder: map<nat, (nat, nat)>, inums: set<int>, f: nat, b: nat)
    requires Tables(ns, zs, holder, inums) && f in zs && |zs[f]| < MAX_ZONES
    requires |zs[f]| >= NR_DIRECT_ZONE ==> ns[f].zones[TableOf(|zs[f]|)] != 0
    ensures |zs[f]| >= NR_DIRECT_ZONE ==> ns[f].zones[TableOf(|zs[f]|)] < |ns|
    ensures Tables(Link(ns, f, |zs[f]|, b), zs[f := zs[f] + [b]], holder, inums)
    ensures SameSizes(ns, Link(ns, f, |zs[f]|, b))
  {
    hide Recorded;
    hide TablesHeld;
    if |zs[f]| < NR_DIRECT_ZONE {
      NewDirect(ns, zs, holder, inums, f, b);
    } else {
      NewIndirect(ns, zs, holder, inums, f, b);
    }
  }

  predicate SameSizes(ns: seq<Inode>, ns': seq<Inode>) {
    |ns'| == |ns| && forall n :: 0 <= n < |ns| ==> ns'[n].size == ns[n].size
  }

  lemma TablesShape(ns: seq<Inode>, zs: map<nat, seq<nat>>, holder: map<nat, (nat, nat)>, inums: set<int>)
    requires Tables(ns, zs, holder, inums)
    ensures Shaped(ns) && forall f :: f in zs ==> 0 < f < |ns| && f in inums
  {
  }
}
