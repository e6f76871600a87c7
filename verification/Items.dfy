/** The data items of the list, and calc_func and the two comparators of core_list_join.c as functions
    from values to values: what they return and what they write back. */
module Items {
  import opened Words
  import opened Crc
  import opened StateBench
  import opened Matrix
  import opened Records

  datatype EnvBase = EnvBase(seed1: s16, seed2: s16, n: nat, a: seq<s16>, b: seq<s16>)

  /** What calc_func reads of the results structure and leaves as it is. */
  type Env = e: EnvBase | |e.a| == |e.b| == e.n * e.n witness EnvBase(0, 0, 0, [], [])

  // ---------- calc_func ----------

  /** Bit 7: the result has been cached in bits 0-6. */
  predicate Cached(data: u16) {
    data / 0x80 % 2 == 1
  }

  function Cache(data: u16): u16 {
    data % 0x80
  }

  /** The upper byte, which keeps the original low byte. */
  function Backup(data: u16): u8 {
    data / 0x100
  }

  /** Bits 3-6, replicated into both halves of a byte. */
  function DataType(data: u16): (d: s16)
    ensures 0 <= d <= 0xff && d % 0x11 == 0
  {
    data / 8 % 16 + 16 * (data / 8 % 16)
  }

  function Stride(data: u16): (d: s16)
    ensures 0x22 <= d <= 0xff && d % 0x11 == 0
  {
    if DataType(data) < 0x22 then 0x22 else DataType(data)
  }

  /** The value calculated for an item that is not cached, before it is cut to seven bits. */
  function Calculated(env: Env, data: u16, regs: Regs): u16
  {
    if data % 8 == 0 then BenchCrc(regs.text, env.seed1 % 0x100, Stride(data), regs.crc)
    else if data % 8 == 1 then CrcWord(MatrixTestCrc(env.n, env.a, env.b, DataType(data)), regs.crc)
    else data
  }

  /** The text that the calculation leaves. */
  function TextAfter(env: Env, data: u16, text: seq<u8>): (t: seq<u8>)
    ensures |t| == |text|
  {
    if data % 8 == 0 then CorruptedTwice(text, env.seed1 % 0x100, env.seed2 % 0x100, Stride(data)) else text
  }

  /** The upper byte kept, bit 7 set, and the lower seven bits of the value. */
  function Packed(data: u16, value: u16): u16 {
    data / 0x100 * 0x100 + 0x80 + value % 0x80
  }

  lemma PackedFacts(data: u16, value: u16)
    ensures Cached(Packed(data, value))
    ensures Backup(Packed(data, value)) == Backup(data)
    ensures Cache(Packed(data, value)) == value % 0x80
  {
  }

  function FirstNonzero(old_: u16, new_: u16): u16 {
    if old_ == 0 then new_ else old_
  }

  function CalcRegs(env: Env, data: u16, regs: Regs): Regs
  {
    if Cached(data) then regs
    else
      var value := Calculated(env, data, regs);
      Regs(CrcWord(value, regs.crc),
           if data % 8 == 1 then FirstNonzero(regs.crcmatrix, value) else regs.crcmatrix,
           if data % 8 == 0 then FirstNonzero(regs.crcstate, value) else regs.crcstate,
           TextAfter(env, data, regs.text))
  }

  function CalcData(env: Env, data: u16, regs: Regs): u16
  {
    if Cached(data) then data else Packed(data, Calculated(env, data, regs))
  }

  /** calc_func returns what it leaves in the cache; the item is cached from then on, so that a second
      call returns the same and writes nothing; and the backup byte never changes. */
  lemma CalcCaches(env: Env, data: u16, regs: Regs, regs': Regs)
    ensures Cached(CalcData(env, data, regs))
    ensures Backup(CalcData(env, data, regs)) == Backup(data)
    ensures CalcData(env, CalcData(env, data, regs), regs') == CalcData(env, data, regs)
    ensures CalcRegs(env, CalcData(env, data, regs), regs') == regs'
  {
    if !Cached(data) {
      PackedFacts(data, Calculated(env, data, regs));
    }
  }

  // ---------- The comparators ----------

  function Regen(data: u16): u16 {
    data / 0x100 * 0x100 + data / 0x100
  }

  predicate Regenerated(data: u16) {
    data % 0x100 == Backup(data)
  }

  /** Same record up to the byte that comparators may rewrite. */
  predicate SameBackup(x: Item, y: Item) {
    x.idx == y.idx && Backup(x.data16) == Backup(y.data16)
  }

  /** An item whose value is neither that of the text nor that of the matrix benchmark. */
  predicate Plain(data: u16) {
    !Cached(data) && data % 8 >= 2
  }

  /** The value of such an item is its own data, whatever the benchmarks and the register: its lower seven
      bits are cached, and the whole word is coded. */
  lemma PlainValue(env: Env, data: u16, regs: Regs)
    requires Plain(data)
    ensures CalcData(env, data, regs) == Packed(data, data) && Cache(CalcData(env, data, regs)) == data % 0x80
    ensures CalcRegs(env, data, regs) == regs.(crc := CrcWord(data, regs.crc))
  {
    PackedFacts(data, data);
  }

  /** An item of type 0 runs the text benchmark at its own stride: corrupted with the low byte of the first
      seed, and once more with that of the second.  Its value is the code of the counters of both scans. */
  lemma TextValue(env: Env, data: u16, regs: Regs)
    requires !Cached(data) && data % 8 == 0
    ensures Calculated(env, data, regs) == CrcWords(BenchWords(regs.text, env.seed1 % 0x100, Stride(data)), regs.crc)
    ensures TextAfter(env, data, regs.text) == regs.text <==>
            forall i | 0 <= i < |regs.text| && i % Stride(data) == 0 ::
              Restored(regs.text[i], env.seed1 % 0x100, env.seed2 % 0x100)
  {
    BenchCrcIsCode(regs.text, env.seed1 % 0x100, Stride(data), regs.crc);
    UndoneIff(regs.text, env.seed1 % 0x100, env.seed2 % 0x100, Stride(data));
  }

  /** What comparisons by data may make of a record: backup and idx stay, a cached value stays, and a plain
      item is cached with its own lower bits or not at all. */
  predicate Looked(x: Item, y: Item) {
    && SameBackup(x, y) && (Cached(x.data16) ==> y == x)
    && (Plain(x.data16) ==> y == x || (Cached(y.data16) && Cache(y.data16) == x.data16 % 0x80))
  }

  /** cmp_complex: compares the cached values, calculating and caching them first. */
  function CmpComplex(env: Env): Comparator {
    Comparator((x: Item, regs: Regs) => x.(data16 := CalcData(env, x.data16, regs)),
               (x: Item, regs: Regs) => CalcRegs(env, x.data16, regs),
               (x: Item) => Cache(x.data16),
               (x: Item) => Cached(x.data16),
               Looked)
  }

  /** cmp_idx called with NULL: compares idx, and regenerates both items from their backups. */
  function CmpIdx(): Comparator {
    Comparator((x: Item, regs: Regs) => x.(data16 := Regen(x.data16)),
               (x: Item, regs: Regs) => regs,
               (x: Item) => x.idx,
               (x: Item) => Regenerated(x.data16),
               SameBackup)
  }

  /** cmp_idx called with a results structure: compares idx and writes nothing. */
  function CmpIdxOnly(): Comparator {
    Comparator((x: Item, regs: Regs) => x,
               (x: Item, regs: Regs) => regs,
               (x: Item) => x.idx,
               (x: Item) => true,
               SameBackup)
  }

  lemma CmpIdxOnlyLawful()
    ensures CmpIdxOnly().Lawful()
  {
  }

  lemma CmpComplexLawful(env: Env)
    ensures CmpComplex(env).Lawful()
  {
    var c := CmpComplex(env);
    forall x: Item, regs: Regs
      ensures c.touched(c.touch(x, regs)) && c.same(x, c.touch(x, regs))
      ensures c.touched(x) ==> c.touch(x, regs) == x && c.regs(x, regs) == regs
    {
      CalcCaches(env, x.data16, regs, regs);
      if Plain(x.data16) {
        PlainValue(env, x.data16, regs);
      }
    }
  }

  lemma RegenFacts(data: u16)
    ensures Regenerated(Regen(data)) && Backup(Regen(data)) == Backup(data)
    ensures Regenerated(data) ==> Regen(data) == data
  {
  }

  lemma CmpIdxLawful()
    ensures CmpIdx().Lawful()
  {
    var c := CmpIdx();
    forall x: Item, regs: Regs
      ensures c.touched(c.touch(x, regs)) && c.same(x, c.touch(x, regs))
      ensures c.touched(x) ==> c.touch(x, regs) == x && c.regs(x, regs) == regs
    {
      RegenFacts(x.data16);
    }
  }

  /** An item whose low byte equals its backup is determined by its backup and idx. */
  lemma RegeneratedUnique(x: Item, y: Item)
    requires SameBackup(x, y) && Regenerated(x.data16) && Regenerated(y.data16)
    ensures x == y
  {
  }
}
