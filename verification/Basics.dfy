/** What several components share: a value that may be missing, and the C integer ranges. */
module Basics {

  datatype Option<+T> = None | Some(value: T)

  /** A member of a C structure. */
  datatype Member = Member(size: nat, align: nat)

  /** The next multiple of an alignment, which in C is a small power of two. */
  function Aligned(at: nat, align: nat): nat {
    match align
    case 2 => (at + 1) / 2 * 2
    case 4 => (at + 3) / 4 * 4
    case 8 => (at + 7) / 8 * 8
    case _ => at
  }

  /** Where C puts member `k`: behind the one before it, at the next multiple of its alignment. */
  function OffsetOf(member: nat -> Member, k: nat): nat {
    if k == 0 then 0 else Aligned(OffsetOf(member, k - 1) + member(k - 1).size, member(k).align)
  }

  lemma NextOffset(member: nat -> Member, k: nat, before: nat, m: Member, next: Member)
    requires OffsetOf(member, k) == before && member(k) == m && member(k + 1) == next
    ensures OffsetOf(member, k + 1) == Aligned(before + m.size, next.align)
  {
  }

  const U32 := 0x1_0000_0000
  const U64 := 0x1_0000_0000_0000_0000
}
