/** `Proxy::Call`: the chain of comparisons that selects a handler by name. */
module Dispatch {
  import opened Marshalling

  function Name(op: Op): (s: string)
    ensures |s| >= 4
  {
    match op
    case Init => "Init"
    case Destroy => "Destroy"
    case Lookup => "Lookup"
    case Forget => "Forget"
    case GetAttr => "GetAttr"
    case SetAttr => "SetAttr"
    case ReadLink => "ReadLink"
    case MkNod => "MkNod"
    case MkDir => "MkDir"
    case Unlink => "Unlink"
    case RmDir => "RmDir"
    case SymLink => "SymLink"
    case Rename => "Rename"
    case Link => "Link"
    case Open => "Open"
    case Read => "Read"
    case Write => "Write"
    case Flush => "Flush"
    case Release => "Release"
    case FSync => "FSync"
    case OpenDir => "OpenDir"
    case ReadDir => "ReadDir"
    case ReleaseDir => "ReleaseDir"
    case FSyncDir => "FSyncDir"
    case StatFs => "StatFs"
    case SetXAttr => "SetXAttr"
    case GetXAttr => "GetXAttr"
    case ListXAttr => "ListXAttr"
    case RemoveXAttr => "RemoveXAttr"
    case Access => "Access"
    case Create => "Create"
    case GetLock => "GetLock"
    case SetLock => "SetLock"
    case BMap => "BMap"
  }

  const CHAIN_LENGTH: nat := 34

  /** The i-th comparison of the chain, in the order of the source. */
  function InChain(i: nat): Op
    requires i < CHAIN_LENGTH
  {
    if i == 0 then Op.Init else
    if i == 1 then Op.Destroy else
    if i == 2 then Op.Lookup else
    if i == 3 then Op.Forget else
    if i == 4 then Op.GetAttr else
    if i == 5 then Op.SetAttr else
    if i == 6 then Op.ReadLink else
    if i == 7 then Op.MkNod else
    if i == 8 then Op.MkDir else
    if i == 9 then Op.Unlink else
    if i == 10 then Op.RmDir else
    if i == 11 then Op.SymLink else
    if i == 12 then Op.Rename else
    if i == 13 then Op.Link else
    if i == 14 then Op.Open else
    if i == 15 then Op.Read else
    if i == 16 then Op.Write else
    if i == 17 then Op.Flush else
    if i == 18 then Op.Release else
    if i == 19 then Op.FSync else
    if i == 20 then Op.OpenDir else
    if i == 21 then Op.ReadDir else
    if i == 22 then Op.ReleaseDir else
    if i == 23 then Op.FSyncDir else
    if i == 24 then Op.StatFs else
    if i == 25 then Op.SetXAttr else
    if i == 26 then Op.GetXAttr else
    if i == 27 then Op.ListXAttr else
    if i == 28 then Op.RemoveXAttr else
    if i == 29 then Op.Access else
    if i == 30 then Op.Create else
    if i == 31 then Op.GetLock else
    if i == 32 then Op.SetLock else
    Op.BMap
  }

  /** The handlers run by the comparisons from the i-th on. No link of the chain stops
      it: each comparison is made, whatever an earlier one did. */
  function CalledFrom(i: nat, opName: string): seq<Op>
    requires i <= CHAIN_LENGTH
    decreases CHAIN_LENGTH - i
  {
    if i == CHAIN_LENGTH then [] else
      (if opName == Name(InChain(i)) then [InChain(i)] else []) + CalledFrom(i + 1, opName)
  }

  /** What `Proxy::Call` runs for a name. */
  function Called(opName: string): seq<Op> { CalledFrom(0, opName) }

  // ---- Names are distinct ----

  function Key(s: string): int
    requires |s| >= 2
  {
    2 * |s| + 9 * s[0] as int + s[|s| - 2] as int
  }

  function FromKey(k: int): Op {
    if k == 770 then Op.Init else
    if k == 737 then Op.Destroy else
    if k == 813 then Op.Lookup else
    if k == 743 then Op.Forget else
    if k == 769 then Op.GetAttr else
    if k == 877 then Op.SetAttr else
    if k == 864 then Op.ReadLink else
    if k == 814 then Op.MkNod else
    if k == 808 then Op.MkDir else
    if k == 887 then Op.Unlink else
    if k == 853 then Op.RmDir else
    if k == 871 then Op.SymLink else
    if k == 859 then Op.Rename else
    if k == 802 then Op.Link else
    if k == 820 then Op.Open else
    if k == 843 then Op.Read else
    if k == 909 then Op.Write else
    if k == 755 then Op.Flush else
    if k == 867 then Op.Release else
    if k == 750 then Op.FSync else
    if k == 830 then Op.OpenDir else
    if k == 857 then Op.ReadDir else
    if k == 863 then Op.ReleaseDir else
    if k == 751 then Op.FSyncDir else
    if k == 829 then Op.StatFs else
    if k == 879 then Op.SetXAttr else
    if k == 771 then Op.GetXAttr else
    if k == 818 then Op.ListXAttr else
    if k == 876 then Op.RemoveXAttr else
    if k == 712 then Op.Access else
    if k == 731 then Op.Create else
    if k == 752 then Op.GetLock else
    if k == 860 then Op.SetLock else
    Op.BMap
  }

  function Position(op: Op): (i: nat)
    ensures i < CHAIN_LENGTH
  {
    match op
    case Init => 0
    case Destroy => 1
    case Lookup => 2
    case Forget => 3
    case GetAttr => 4
    case SetAttr => 5
    case ReadLink => 6
    case MkNod => 7
    case MkDir => 8
    case Unlink => 9
    case RmDir => 10
    case SymLink => 11
    case Rename => 12
    case Link => 13
    case Open => 14
    case Read => 15
    case Write => 16
    case Flush => 17
    case Release => 18
    case FSync => 19
    case OpenDir => 20
    case ReadDir => 21
    case ReleaseDir => 22
    case FSyncDir => 23
    case StatFs => 24
    case SetXAttr => 25
    case GetXAttr => 26
    case ListXAttr => 27
    case RemoveXAttr => 28
    case Access => 29
    case Create => 30
    case GetLock => 31
    case SetLock => 32
    case BMap => 33
  }

  lemma KeyIdentifies0(op: Op)
    requires 0 <= Position(op) < 12
    ensures FromKey(Key(Name(op))) == op
  {
    match op
    case Init => assert Key("Init") == 770;
    case Destroy => assert Key("Destroy") == 737;
    case Lookup => assert Key("Lookup") == 813;
    case Forget => assert Key("Forget") == 743;
    case GetAttr => assert Key("GetAttr") == 769;
    case SetAttr => assert Key("SetAttr") == 877;
    case ReadLink => assert Key("ReadLink") == 864;
    case MkNod => assert Key("MkNod") == 814;
    case MkDir => assert Key("MkDir") == 808;
    case Unlink => assert Key("Unlink") == 887;
    case RmDir => assert Key("RmDir") == 853;
    case SymLink => assert Key("SymLink") == 871;
  }

  lemma KeyIdentifies1(op: Op)
    requires 12 <= Position(op) < 23
    ensures FromKey(Key(Name(op))) == op
  {
    match op
    case Rename => assert Key("Rename") == 859;
    case Link => assert Key("Link") == 802;
    case Open => assert Key("Open") == 820;
    case Read => assert Key("Read") == 843;
    case Write => assert Key("Write") == 909;
    case Flush => assert Key("Flush") == 755;
    case Release => assert Key("Release") == 867;
    case FSync => assert Key("FSync") == 750;
    case OpenDir => assert Key("OpenDir") == 830;
    case ReadDir => assert Key("ReadDir") == 857;
    case ReleaseDir => assert Key("ReleaseDir") == 863;
  }

  lemma KeyIdentifies2(op: Op)
    requires 23 <= Position(op) < 34
    ensures FromKey(Key(Name(op))) == op
  {
    match op
    case FSyncDir => assert Key("FSyncDir") == 751;
    case StatFs => assert Key("StatFs") == 829;
    case SetXAttr => assert Key("SetXAttr") == 879;
    case GetXAttr => assert Key("GetXAttr") == 771;
    case ListXAttr => assert Key("ListXAttr") == 818;
    case RemoveXAttr => assert Key("RemoveXAttr") == 876;
    case Access => assert Key("Access") == 712;
    case Create => assert Key("Create") == 731;
    case GetLock => assert Key("GetLock") == 752;
    case SetLock => assert Key("SetLock") == 860;
    case BMap => assert Key("BMap") == 699;
  }

  lemma KeyIdentifies(op: Op)
    ensures FromKey(Key(Name(op))) == op
  {
    if Position(op) < 12 {
      KeyIdentifies0(op);
    } else if Position(op) < 23 {
      KeyIdentifies1(op);
    } else {
      KeyIdentifies2(op);
    }
  }

  lemma NamesDistinct(a: Op, b: Op)
    requires Name(a) == Name(b)
    ensures a == b
  {
    KeyIdentifies(a);
    KeyIdentifies(b);
  }

  // ---- One handler per name ----

  lemma ChainHolds(op: Op)
    ensures InChain(Position(op)) == op
  {
  }

  lemma ChainDistinct(i: nat)
    requires i < CHAIN_LENGTH
    ensures Position(InChain(i)) == i
  {
  }

  lemma OnlyPosition(i: nat, op: Op)
    requires i < CHAIN_LENGTH
    ensures Name(InChain(i)) == Name(op) <==> i == Position(op)
  {
    ChainHolds(op);
    ChainDistinct(i);
    if Name(InChain(i)) == Name(op) {
      NamesDistinct(InChain(i), op);
    }
  }

  lemma {:induction false} CalledFromIs(i: nat, op: Op)
    requires i <= CHAIN_LENGTH
    ensures CalledFrom(i, Name(op)) == if i <= Position(op) then [op] else []
    decreases CHAIN_LENGTH - i
  {
    if i < CHAIN_LENGTH {
      OnlyPosition(i, op);
      ChainHolds(op);
      CalledFromIs(i + 1, op);
    }
  }

  lemma {:induction false} NoneCalledFrom(i: nat, opName: string)
    requires i <= CHAIN_LENGTH
    requires forall op :: Name(op) != opName
    ensures CalledFrom(i, opName) == []
    decreases CHAIN_LENGTH - i
  {
    if i < CHAIN_LENGTH {
      NoneCalledFrom(i + 1, opName);
    }
  }

  /** A known name runs its own handler, once, and no other; an unknown one runs none. */
  lemma DispatchByName(opName: string)
    ensures forall op :: Name(op) == opName ==> Called(opName) == [op]
    ensures (forall op :: Name(op) != opName) ==> Called(opName) == []
  {
    forall op | Name(op) == opName
      ensures Called(opName) == [op]
    {
      CalledFromIs(0, op);
    }
    if forall op :: Name(op) != opName {
      NoneCalledFrom(0, opName);
    }
  }
}
