/** The records that comparisons read and write, and what is asked of a comparator. */
module Records {
  import opened Words

  /** A list_data record.  `data16` is the bit pattern of the signed short in the source. */
  datatype Item = Item(data16: u16, idx: s16)

  /** What calc_func updates: three codes in the results structure, and the text of the state block,
      which corruption may change for good. */
  datatype Regs = Regs(crc: u16, crcmatrix: u16, crcstate: u16, text: seq<u8>)

  /** For sorts whose comparison does not look at the registers. */
  const NO_REGS: Regs := Regs(0, 0, 0, [])

  /** A comparison function that may write to the items it compares: what looking at an item makes of
      it and of the registers, and the key that is compared afterwards.  `touched` marks the items that
      looking no longer changes, and `same` relates items that differ in rewritten parts only. */
  datatype Comparator = Comparator(
    touch: (Item, Regs) -> Item,
    regs: (Item, Regs) -> Regs,
    key: Item -> int,
    touched: Item -> bool,
    same: (Item, Item) -> bool)
  {
    /** Looking at an item settles it: looking again changes nothing. */
    ghost predicate Lawful() {
      && (forall x, r :: touched(touch(x, r)) && same(x, touch(x, r)))
      && (forall x, r :: touched(x) ==> touch(x, r) == x && regs(x, r) == r)
      && (forall x :: same(x, x))
      && (forall x, y, z :: same(x, y) && same(y, z) ==> same(x, z))
    }
  }
}
