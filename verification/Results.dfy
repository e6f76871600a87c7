/** The results structure of coremark.h, and calc_func of core_list_join.c, which runs one of the other
    two benchmarks and caches its outcome in the list item. */
module Results {
  import opened Words
  import opened Crc
  import opened Records
  import opened Items
  import opened StateBench
  import opened StateInit
  import opened Matrix
  import opened MatrixInit

  class ListData {
    var data16: u16
    var idx: s16

    constructor (data16: u16, idx: s16)
      ensures this.data16 == data16 && this.idx == idx
    {
      this.data16, this.idx := data16, idx;
    }
  }

  class ListHead {
    var next: ListHead?
    var info: ListData

    constructor (info: ListData)
      ensures this.next == null && this.info == info
    {
      this.next, this.info := null, info;
    }
  }

  class CoreResults {
    const seed1: s16
    const seed2: s16
    const seed3: s16
    const memblock3: array<u8>
    const mat: MatParams
    const iterations: nat
    var list: ListHead?
    var crc: u16
    var crclist: u16
    var crcmatrix: u16
    var crcstate: u16

    constructor (seed1: s16, seed2: s16, seed3: s16, memblock3: array<u8>, mat: MatParams, list: ListHead,
                 iterations: nat)
      ensures this.seed1 == seed1 && this.seed2 == seed2 && this.seed3 == seed3
      ensures this.memblock3 == memblock3 && this.mat == mat && this.list == list && this.iterations == iterations
      ensures crc == crclist == crcmatrix == crcstate == 0
    {
      this.seed1, this.seed2, this.seed3 := seed1, seed2, seed3;
      this.memblock3, this.mat, this.list, this.iterations := memblock3, mat, list, iterations;
      crc, crclist, crcmatrix, crcstate := 0, 0, 0, 0;
    }

    /** The blocks are disjoint, and the text holds a NUL that no corruption can reach. */
    ghost predicate Ready()
      reads memblock3
    {
      && mat.a.Length == mat.b.Length == mat.c.Length == mat.n * mat.n
      && mat.a != mat.b
      && mat.c as object != mat.a as object && mat.c as object != mat.b as object
      && memblock3 as object != mat.a as object && memblock3 as object != mat.b as object
      && memblock3 as object != mat.c as object
      && Safe(memblock3[..])
    }

    ghost function Environment(): Env
      requires mat.a.Length == mat.b.Length == mat.n * mat.n
      reads mat.a, mat.b
    {
      EnvBase(seed1, seed2, mat.n, mat.a[..], mat.b[..])
    }

    ghost function Registers(): Regs
      reads this, memblock3
    {
      Regs(crc, crcmatrix, crcstate, memblock3[..])
    }
  }

  method CoreBenchMatrix(p: MatParams, seed: s16, crc: u16) returns (r: u16)
    requires p.a.Length == p.b.Length == p.c.Length == p.n * p.n && p.a != p.b
    requires p.c as object != p.a as object && p.c as object != p.b as object
    modifies p.a, p.c
    ensures p.a[..] == old(p.a[..])
    ensures r == CrcWord(MatrixTestCrc(p.n, old(p.a[..]), p.b[..], seed), crc)
    ensures p.c[..] == Product(true, Shifted(old(p.a[..]), seed), p.b[..], p.n)
  {
    var test := MatrixTest(p.n, p.c, p.a, p.b, seed);
    r := Crcu16(test, crc);
  }

  /** The blocks hold what `env` says. */
  ghost predicate ReadyIn(res: CoreResults, env: Env)
    reads res.memblock3, res.mat.a, res.mat.b
  {
    forall k {:trigger Look(BLOCKS, k)} :: Look(BLOCKS, k) ==> res.Ready() && res.Environment() == env
  }

  /** The text benchmark: both scans end inside the text, whatever the seeds. */
  method RunState(step: s16, res: CoreResults, ghost env: Env, ghost text: seq<u8>) returns (r: u16)
    requires ReadyIn(res, env) && step > 0 && step % 0x11 == 0 && res.memblock3[..] == text
    modifies res.memblock3
    ensures ReadyIn(res, env) && r == BenchCrc(text, env.seed1 % 0x100, step, res.crc)
    ensures res.memblock3[..] == CorruptedTwice(text, env.seed1 % 0x100, env.seed2 % 0x100, step)
  {
    assert Look(BLOCKS, 0);
    SafeStays(text, env.seed1 % 0x100, step);
    SafeStays(Corrupted(text, env.seed1 % 0x100, step), env.seed2 % 0x100, step);
    r := CoreBenchState(res.memblock3.Length, res.memblock3, res.seed1, res.seed2, step, res.crc);
  }

  method RunMatrix(dtype: s16, res: CoreResults, ghost env: Env, ghost text: seq<u8>) returns (r: u16)
    requires ReadyIn(res, env) && res.memblock3[..] == text
    modifies res.mat.a, res.mat.c
    ensures ReadyIn(res, env) && r == CrcWord(MatrixTestCrc(env.n, env.a, env.b, dtype), res.crc)
    ensures res.memblock3[..] == text
  {
    assert Look(BLOCKS, 0);
    r := CoreBenchMatrix(res.mat, dtype, res.crc);
    assert res.memblock3[..] == text;
  }

  /** The switch of calc_func: run the benchmark that bits 0-2 select. */
  method Calculate(data: u16, res: CoreResults, ghost env: Env, ghost regs: Regs) returns (retval: u16)
    requires ReadyIn(res, env) && res.Registers() == regs
    modifies res`crcmatrix, res`crcstate, res.memblock3, res.mat.a, res.mat.c
    ensures ReadyIn(res, env) && retval == Calculated(env, data, regs)
    ensures !Cached(data) ==> CalcRegs(env, data, regs) == res.Registers().(crc := CrcWord(retval, regs.crc))
    ensures res.crc == regs.crc
  {
    var dtype := DataType(data);
    if data % 8 == 0 {
      if dtype < 0x22 {
        dtype := 0x22;
      }
      retval := RunState(dtype, res, env, regs.text);
      if res.crcstate == 0 {
        res.crcstate := retval;
      }
    } else if data % 8 == 1 {
      retval := RunMatrix(dtype, res, env, regs.text);
      if res.crcmatrix == 0 {
        res.crcmatrix := retval;
      }
    } else {
      retval := data;
    }
  }

  /** calc_func: the cached value, or the calculated one, which it caches. */
  method CalcFunc(pdata: ListData, res: CoreResults, ghost env: Env) returns (ret: u16)
    requires ReadyIn(res, env)
    modifies pdata`data16, res`crc, res`crcmatrix, res`crcstate, res.memblock3, res.mat.a, res.mat.c
    ensures ReadyIn(res, env)
    ensures pdata.data16 == CalcData(env, old(pdata.data16), old(res.Registers()))
    ensures res.Registers() == CalcRegs(env, old(pdata.data16), old(res.Registers()))
    ensures ret == Cache(pdata.data16)
  {
    ghost var regs := res.Registers();
    var data := pdata.data16;
    if Cached(data) {
      ret := Cache(data);
    } else {
      var retval := Calculate(data, res, env, regs);
      var crc := Crcu16(retval, res.crc);
      res.crc := crc;
      PackedFacts(data, retval);
      ret := retval % 0x80;
      pdata.data16 := data / 0x100 * 0x100 + 0x80 + ret;
    }
  }
}
