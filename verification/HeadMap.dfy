/** Which kv head stage 1 of the decode kernels reads for each query head. */
module HeadMap {
  import opened IndexArith

  /** Which stage 1 kernel ran: one program per query head, or one per block of up to blockH query
      heads. */
  datatype Mode = PerHead | Grouped(blockH: nat) {
    predicate Ok() { Grouped? ==> blockH > 0 }
  }

  /** Query heads a grouped program handles. */
  function ValidBlock(group: nat, blockH: nat): nat {
    if blockH < group then blockH else group
  }

  function Quotient(h: nat, v: nat): nat
    requires v > 0
  {
    h / v
  }

  /** Query head h belongs to block h / v; every n consecutive blocks read one kv head. */
  function BlockedHead(h: nat, v: nat, n: nat): nat
    requires v > 0 && n > 0
  {
    Quotient(Quotient(h, v), n)
  }

  /** The kv head stage 1 reads for query head h. */
  function KvHeadOf(group: nat, mode: Mode, h: nat): nat
    requires group > 0 && mode.Ok()
  {
    match mode
    case PerHead => Quotient(h, group)
    case Grouped(blockH) => BlockedHead(h, ValidBlock(group, blockH), CeilDiv(group, blockH))
  }

  lemma OneBlock(group: nat, blockH: nat)
    requires 0 < group <= blockH
    ensures CeilDiv(group, blockH) == 1
  {
    DivIs(blockH, group + blockH - 1, 1, group - 1);
  }

  lemma {:induction false} WholeBlocks(group: nat, blockH: nat)
    requires blockH > 0 && group % blockH == 0
    ensures CeilDiv(group, blockH) * blockH == group
  {
    DivIs(blockH, group + blockH - 1, group / blockH, blockH - 1);
  }

  lemma {:induction false} KvHeadInRange(group: nat, kvHeads: nat, mode: Mode, h: nat)
    requires group > 0 && mode.Ok() && h < group * kvHeads
    ensures KvHeadOf(group, mode, h) < kvHeads
  {
    match mode
    case PerHead => DivBelow(h, group, kvHeads);
    case Grouped(blockH) =>
      CeilDivBounds(group, blockH);
      if group <= blockH {
        OneBlock(group, blockH);
      }
      BlockGroupBelow(h, group, kvHeads, ValidBlock(group, blockH), CeilDiv(group, blockH));
  }

  lemma QuotientByOne(x: nat)
    ensures x / 1 == x
  {
  }

  lemma {:induction false} WholeBlockHead(group: nat, blockH: nat, h: nat)
    requires blockH > 0 && group > blockH && group % blockH == 0
    ensures KvHeadOf(group, Grouped(blockH), h) == h / group
  {
    var n := CeilDiv(group, blockH);
    WholeBlocks(group, blockH);
    DivTwice(h, blockH, n, group);
  }

  lemma SmallGroupHead(group: nat, blockH: nat, h: nat)
    requires 0 < group <= blockH
    ensures KvHeadOf(group, Grouped(blockH), h) == h / group
  {
    OneBlock(group, blockH);
    QuotientByOne(h / group);
  }

  lemma {:induction false} SingleKvHead(group: nat, blockH: nat, h: nat)
    requires blockH > 0 && h < group
    ensures KvHeadOf(group, Grouped(blockH), h) == h / group
  {
    hide KvHeadOf;
    KvHeadInRange(group, 1, Grouped(blockH), h);
    DivBelow(h, group, 1);
  }

  lemma {:induction false} BlocksFitGroups(group: nat, kvHeads: nat, blockH: nat, h: nat)
    requires group > 0 && blockH > 0 && h < group * kvHeads
    requires group <= blockH || group % blockH == 0 || kvHeads == 1
    ensures KvHeadOf(group, Grouped(blockH), h) == h / group
  {
    hide KvHeadOf;
    if group <= blockH {
      SmallGroupHead(group, blockH, h);
    } else if kvHeads == 1 {
      SingleKvHead(group, blockH, h);
    } else {
      WholeBlockHead(group, blockH, h);
    }
  }

  /** When blocks straddle kv heads, the first query head of the second kv head reads the first. */
  lemma StraddlingBlock(group: nat, blockH: nat)
    requires blockH > 0 && group > blockH && group % blockH != 0
    ensures KvHeadOf(group, Grouped(blockH), group) == 0
  {
    var n := CeilDiv(group, blockH);
    CeilDivBounds(group, blockH);
    if n * blockH == group {
      DivIs(blockH, group, n, 0);
    }
    DivBelow(group, blockH, n);
    DivBelow(group / blockH, n, 1);
  }

  ghost predicate HeadsRight(group: nat, kvHeads: nat, blockH: nat)
    requires group > 0 && blockH > 0
  {
    forall h: nat :: h < group * kvHeads ==> KvHeadOf(group, Grouped(blockH), h) == h / group
  }

  /** The grouped kernel reads the right kv head for every query head exactly when a kv head's
      group fits in one block, or is cut into whole blocks, or there is at most one kv head. */
  lemma GroupedHeadsRight(group: nat, kvHeads: nat, blockH: nat)
    requires group > 0 && blockH > 0
    ensures HeadsRight(group, kvHeads, blockH) <==> group <= blockH || group % blockH == 0 || kvHeads <= 1
  {
    if group <= blockH || group % blockH == 0 || kvHeads <= 1 {
      forall h: nat | h < group * kvHeads ensures KvHeadOf(group, Grouped(blockH), h) == h / group {
        BlocksFitGroups(group, kvHeads, blockH, h);
      }
    } else {
      MulMono(2, kvHeads, group);
      StraddlingBlock(group, blockH);
      DivIs(group, group, 1, 0);
      assert KvHeadOf(group, Grouped(blockH), group) != group / group;
    }
  }
}
