/**
 The table of in-memory inodes: iget, idup, ilock and iput.

 A slot with references stands for one inode, and the sleeplock in it is what serialises its users; so there must
 be one slot at most for each inode.  The last reference to an inode without links frees it on the disk: nobody
 else may have one then.
 */
module InodeTable {
  import F = FileSystem

  const NINODE: nat := 50
  const ROOTDEV: nat := 1

  /** If valid, the inode has been read in, and is fs.mem[inum] from then on. */
  datatype Slot = Slot(dev: nat, inum: nat, ref: nat, valid: bool)

  /** Slot k has references, and is for this inode. */
  predicate IsFor(slots: seq<Slot>, k: nat, dev: nat, inum: nat) {
    k < |slots| && slots[k].ref > 0 && slots[k].dev == dev && slots[k].inum == inum
  }

  ghost predicate InTable(slots: seq<Slot>, dev: nat, inum: nat) { exists k: nat :: IsFor(slots, k, dev, inum) }

  ghost predicate HasFree(slots: seq<Slot>) { exists k :: 0 <= k < |slots| && slots[k].ref == 0 }

  /** An inode has at most one slot. */
  ghost predicate OneSlotEach(slots: seq<Slot>) {
    forall j: nat, k: nat, dev: nat, inum: nat | IsFor(slots, j, dev, inum) && IsFor(slots, k, dev, inum) :: j == k
  }

  lemma OneSlotUpdate(slots: seq<Slot>, k: nat, x: Slot)
    requires OneSlotEach(slots) && k < |slots|
    requires x.ref == 0 || IsFor(slots, k, x.dev, x.inum) || !InTable(slots, x.dev, x.inum)
    ensures OneSlotEach(slots[k := x])
  {
    var now := slots[k := x];
    forall i: nat, j: nat, dev: nat, inum: nat | IsFor(now, i, dev, inum) && IsFor(now, j, dev, inum) ensures i == j {
      assert i != k ==> IsFor(slots, i, dev, inum);
      assert j != k ==> IsFor(slots, j, dev, inum);
    }
  }

  class Table {
    const fs: F.Fs
    var slots: seq<Slot>

    /** Whatever becomes of the inodes: they are the file system's. */
    ghost predicate Valid()
      reads this, fs
    {
      && |slots| == NINODE && OneSlotEach(slots) && fs.Valid()
      && forall k | 0 <= k < NINODE && slots[k].ref > 0 && slots[k].valid ::
           slots[k].dev == ROOTDEV && slots[k].inum < |fs.mem|
    }

    /** The inode of slot k. */
    ghost function Node(k: nat): (n: F.Inode)
      reads this, fs`mem
      requires k < |slots| && slots[k].inum < |fs.mem|
    {
      fs.mem[slots[k].inum]
    }

    constructor (fs: F.Fs)
      requires fs.Valid()
      ensures Valid() && this.fs == fs && forall k | 0 <= k < NINODE :: slots[k].ref == 0
    {
      this.fs := fs;
      slots := seq(NINODE, k => Slot(0, 0, 0, false));
    }

    /** iget(): the one slot of the inode, with one more reference.  A table without room would be the panic "iget:
        no inodes". */
    method IGet(dev: nat, inum: nat) returns (k: nat)
      requires Valid() && (InTable(slots, dev, inum) || HasFree(slots))
      modifies this
      ensures Valid() && IsFor(slots, k, dev, inum) && slots == old(slots)[k := slots[k]]
      ensures if old(InTable(slots, dev, inum)) then
              old(slots)[k].ref > 0 && slots[k] == old(slots)[k].(ref := old(slots)[k].ref + 1)
              else old(slots)[k].ref == 0 && slots[k].ref == 1 && !slots[k].valid
      ensures forall j: nat | IsFor(slots, j, dev, inum) :: j == k
    {
      var empty: nat := NINODE;
      k := 0;
      while k < NINODE
        invariant 0 <= k <= NINODE && slots == old(slots) && forall j: nat | j < k :: !IsFor(slots, j, dev, inum)
        invariant if empty < NINODE then slots[empty].ref == 0 else empty == NINODE && forall j | 0 <= j < k ::
                  slots[j].ref > 0
      {
        if slots[k].ref > 0 && slots[k].dev == dev && slots[k].inum == inum {
          assert IsFor(slots, k, dev, inum);
          OneSlotUpdate(slots, k, slots[k].(ref := slots[k].ref + 1));
          slots := slots[k := slots[k].(ref := slots[k].ref + 1)];
          assert IsFor(slots, k, dev, inum);
          return;
        }
        if empty == NINODE && slots[k].ref == 0 { empty := k; }
        k := k + 1;
      }
      k := empty;
      OneSlotUpdate(slots, k, Slot(dev, inum, 1, false));
      slots := slots[k := Slot(dev, inum, 1, false)];
      assert IsFor(slots, k, dev, inum);
    }

    method IDup(k: nat)
      requires Valid() && k < NINODE && slots[k].ref > 0
      modifies this
      ensures Valid() && slots == old(slots)[k := old(slots)[k].(ref := old(slots)[k].ref + 1)]
    {
      assert IsFor(slots, k, slots[k].dev, slots[k].inum);
      OneSlotUpdate(slots, k, slots[k].(ref := slots[k].ref + 1));
      slots := slots[k := slots[k].(ref := slots[k].ref + 1)];
    }

    /** ilock(), without the sleeplock: the inode is read in, if it was not.  A free one would be the panic "ilock: no
        type". */
    method ILock(k: nat)
      requires Valid() && k < NINODE && slots[k].ref > 0 && slots[k].dev == ROOTDEV && slots[k].inum < |fs.mem|
      requires slots[k].valid || fs.mem[slots[k].inum] == fs.dinodes[slots[k].inum]
      requires slots[k].valid || fs.dinodes[slots[k].inum].typ != 0
      modifies this
      ensures Valid() && slots == old(slots)[k := old(slots)[k].(valid := true)]
      ensures !old(slots)[k].valid ==> Node(k) == fs.dinodes[slots[k].inum] && Node(k).typ != 0
    {
      if !slots[k].valid {
        assert IsFor(slots, k, slots[k].dev, slots[k].inum);
        OneSlotUpdate(slots, k, slots[k].(valid := true));
        slots := slots[k := slots[k].(valid := true)];
      }
    }

    /** iput(): one reference less.  The inode is freed exactly if it was the last one, and has been read in and has
        no links; the inodes of all other slots in use are as they were. */
    method IPut(k: nat) returns (ghost freed: bool)
      requires Valid() && k < NINODE && slots[k].ref > 0
      modifies this, fs`bits, fs`mem, fs`dinodes, fs`owner, fs`logged
      ensures Valid() && (old(fs.OnDisk()) ==> fs.OnDisk())
      ensures old(slots)[k].valid ==> old(slots)[k].inum < |old(fs.mem)|
      ensures freed <==> old(slots)[k].ref == 1 && old(slots)[k].valid && old(fs.mem)[old(slots)[k].inum].nlink == 0
      ensures slots == old(slots)[k := old(slots)[k].(ref := old(slots)[k].ref - 1, valid := old(slots)[k].valid &&
                                                      !freed)]
      ensures !freed ==> unchanged(fs)
      ensures freed ==> fs.mem == old(fs.mem)[old(slots)[k].inum := F.Empty(old(Node(k))).(typ := 0)]
      ensures freed ==> F.Truncated(old(fs.bits), fs.bits, old(fs.owner), old(slots)[k].inum)
      ensures |fs.mem| == |old(fs.mem)| && forall j | 0 <= j < NINODE && slots[j].ref > 0 && slots[j].dev == ROOTDEV &&
                slots[j].inum < |fs.mem| :: Node(j) == old(fs.mem)[slots[j].inum]
    {
      freed := slots[k].ref == 1 && slots[k].valid && fs.mem[slots[k].inum].nlink == 0;
      ghost var inum := slots[k].inum;
      assert IsFor(slots, k, slots[k].dev, inum);
      if slots[k].ref == 1 && slots[k].valid && fs.mem[slots[k].inum].nlink == 0 {
        var _ := fs.IPut(slots[k].inum, 1, true);
        slots := slots[k := slots[k].(valid := false)];
        assert forall j: nat | j < NINODE && j != k && slots[j].ref > 0 && slots[j].dev == ROOTDEV ::
            IsFor(old(slots), j, ROOTDEV, slots[j].inum);
      }
      slots := slots[k := slots[k].(ref := slots[k].ref - 1)];
      OneSlotUpdate(old(slots), k, slots[k]);
      assert slots == old(slots)[k := slots[k]];
    }

    /** What unlink() does to an inode that it has locked.  One without links would be the panic "unlink: nlink < 1". */
    method Unlink(k: nat)
      requires Valid() && k < NINODE && slots[k].ref > 0 && slots[k].valid && Node(k).nlink >= 1
      modifies fs`mem, fs`dinodes, fs`logged
      ensures Valid() && (old(fs.OnDisk()) ==> fs.OnDisk())
      ensures fs.mem == old(fs.mem)[slots[k].inum := old(Node(k)).(nlink := old(Node(k)).nlink - 1)]
    {
      var n := fs.mem[slots[k].inum];
      fs.SetInode(slots[k].inum, n.major, n.minor, n.nlink - 1);
    }

    /** unlink() of a file that is open elsewhere: unlink()'s own iput() leaves it to its reader, whose iput() frees
        it. */
    method UnlinkOpen(k: nat)
      requires Valid() && k < NINODE && slots[k].ref == 2 && slots[k].valid && Node(k).nlink == 1
      modifies this, fs`bits, fs`mem, fs`dinodes, fs`owner, fs`logged
      ensures Valid() && slots == old(slots)[k := old(slots)[k].(ref := 0, valid := false)]
      ensures fs.mem == old(fs.mem)[old(slots)[k].inum := F.Empty(old(Node(k)).(nlink := 0)).(typ := 0)]
      ensures F.Truncated(old(fs.bits), fs.bits, old(fs.owner), old(slots)[k].inum)
    {
      Unlink(k);
      var early := IPut(k);
      assert !early;
      var last := IPut(k);
    }
  }
}
