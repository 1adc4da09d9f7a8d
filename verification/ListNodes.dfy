// The nodes of the CoreMark list (`sw/app/coremark/coremark.h`, `core_list_join.c`), the memoising
// value function `calc_func` and the two comparators.
//
// A 16-bit item is modelled by its unsigned bit pattern; masks and shifts by constants are written
// with `/` and `%`. Upper byte: backup. Bit 7: the low 7 bits hold a computed value.

module ListNodes {
  import Arith
  import Crc

  type u16 = n: nat | n < 0x1_0000
  type s16 = i: int | -0x8000 <= i < 0x8000

  const M16 := 0x1_0000

  function Upper(d: u16): nat { d / 0x100 }
  function Lower(d: u16): nat { d % 0x100 }
  predicate Cached(d: u16) { d / 0x80 % 2 == 1 }
  function Value(d: u16): nat { d % 0x80 }

  // `(d & 0xff00) | 0x0080 | (retval & 0x007f)`
  function WithValue(d: u16, retval: u16): u16 { Upper(d) * 0x100 + 0x80 + retval % 0x80 }

  // `(d & 0xff00) | (0x00ff & (d >> 8))`
  function Regenerated(d: u16): u16 { Upper(d) * 0x100 + Upper(d) }

  // Low data byte equal to the backup byte.
  predicate Intact(d: u16) { d == Regenerated(d) }

  function CrcFold(v: u16, crc: bv16): bv16 { Crc.Crc16Of(v as bv16, crc) }

  method Crcu16(v: u16, crc0: bv16) returns (crc: bv16)
    ensures crc == CrcFold(v, crc0)
  {
    crc := Crc.Crcu16(v as bv16, crc0);
  }

  class ListData {
    var data16: u16
    var idx: s16

    constructor (data16: u16, idx: s16)
      ensures this.data16 == data16 && this.idx == idx
    {
      this.data16, this.idx := data16, idx;
    }
  }

  class ListHead {
    var next: ListHead?
    var info: ListData

    constructor (next: ListHead?, info: ListData)
      ensures this.next == next && this.info == info
    {
      this.next, this.info := next, info;
    }
  }

  // Backup byte, cache bit and value make up the item.
  lemma ItemParts(d: u16)
    ensures d == 0x100 * Upper(d) + (if Cached(d) then 0x80 else 0) + Value(d)
    ensures Upper(d) < 0x100 && Value(d) < 0x80
    ensures Intact(d) <==> Lower(d) == Upper(d)
  {
  }

  lemma WithValueFacts(d: u16, retval: u16)
    ensures Upper(WithValue(d, retval)) == Upper(d) && Cached(WithValue(d, retval))
    ensures Value(WithValue(d, retval)) == retval % 0x80
  {
  }

  // The step `calc_func` hands to the state benchmark: bits 3 to 6 of the item, twice, and at least
  // 0x22. It is always a multiple of 17.
  function StateStep(data: u16): (step: nat)
    ensures 0x22 <= step <= 0xff && step % 17 == 0
  {
    var dtype := data / 8 % 16;
    if dtype + 16 * dtype < 0x22 then 0x22 else dtype + 16 * dtype
  }

  // The part of `core_results` that the list benchmark uses.
  class CoreResults {
    var list: ListHead
    var seed3: s16
    var crc: bv16
    var crclist: bv16
    var crcmatrix: u16
    var crcstate: u16
    ghost var computed: seq<ListData> // the items whose value was computed, in order

    constructor (list: ListHead, seed3: s16, crc: bv16)
      ensures this.list == list && this.seed3 == seed3 && this.crc == crc
      ensures crclist == 0 && crcmatrix == crcstate == 0 && computed == []
    {
      this.list, this.seed3, this.crc := list, seed3, crc;
      crclist, crcmatrix, crcstate, computed := 0, 0, 0, [];
    }

    // The state benchmark: any 16-bit result is possible here.
    method BenchState(dtype: u16) returns (retval: u16) {
      retval := *;
    }

    // The matrix benchmark: any 16-bit result is possible here.
    method BenchMatrix(dtype: u16) returns (retval: u16) {
      retval := *;
    }
  }

  // The 7-bit value of an item. It is taken from the cache when bit 7 says so; otherwise it is
  // computed, folded into the CRC, and cached beside the untouched backup byte.
  method CalcFunc(p: ListData, res: CoreResults) returns (retval: int, ghost raw: u16)
    modifies p`data16, res`crc, res`crcmatrix, res`crcstate, res`computed
    ensures retval == Value(p.data16) && Cached(p.data16)
    ensures Upper(p.data16) == Upper(old(p.data16))
    ensures old(Cached(p.data16)) ==>
      p.data16 == old(p.data16) && unchanged(res)
    ensures !old(Cached(p.data16)) ==>
      && p.data16 == WithValue(old(p.data16), raw)
      && (old(p.data16) % 8 > 1 ==> raw == old(p.data16))
      && res.crc == CrcFold(raw, old(res.crc))
      && res.computed == old(res.computed) + [p]
      && res.crcstate == (if old(p.data16) % 8 == 0 && old(res.crcstate) == 0 then raw else old(res.crcstate))
      && res.crcmatrix == (if old(p.data16) % 8 == 1 && old(res.crcmatrix) == 0 then raw else old(res.crcmatrix))
  {
    var data := p.data16;
    raw := data;
    if data / 0x80 % 2 == 1 {
      retval := data % 0x80;
    } else {
      var flag := data % 8;
      var dtype := data / 8 % 16;
      dtype := dtype + 16 * dtype;
      var value: u16;
      if flag == 0 {
        if dtype < 0x22 {
          dtype := 0x22;
        }
        assert dtype == StateStep(p.data16);
        value := res.BenchState(dtype);
        if res.crcstate == 0 {
          res.crcstate := value;
        }
      } else if flag == 1 {
        value := res.BenchMatrix(dtype);
        if res.crcmatrix == 0 {
          res.crcmatrix := value;
        }
      } else {
        value := data;
      }
      raw := value;
      res.crc := Crcu16(value, res.crc);
      retval := value % 0x80;
      WithValueFacts(data, value);
      p.data16 := data / 0x100 * 0x100 + 0x80 + retval;
      res.computed := res.computed + [p];
    }
  }

  // What computing the value of item `p` adds to the history.
  ghost function Fresh(data: u16, p: ListData): seq<ListData> {
    if Cached(data) then [] else [p]
  }

  method CmpComplex(a: ListData, b: ListData, res: CoreResults) returns (r: int)
    modifies a`data16, b`data16, res`crc, res`crcmatrix, res`crcstate, res`computed
    ensures Cached(a.data16) && Cached(b.data16) && r == Value(a.data16) - Value(b.data16)
    ensures Upper(a.data16) == Upper(old(a.data16)) && Upper(b.data16) == Upper(old(b.data16))
    ensures old(Cached(a.data16)) ==> a.data16 == old(a.data16)
    ensures old(Cached(b.data16)) ==> b.data16 == old(b.data16)
    ensures a != b ==>
      res.computed == old(res.computed) + Fresh(old(a.data16), a) + Fresh(old(b.data16), b)
  {
    hide Upper, Cached, Value, WithValue, CrcFold;
    ghost var a0, b0, log0 := a.data16, b.data16, res.computed;
    var val1, raw1 := CalcFunc(a, res);
    assert res.computed == log0 + Fresh(a0, a) && Upper(a.data16) == Upper(a0) && (Cached(a0) ==> a.data16 == a0);
    assert a != b ==> b.data16 == b0;
    label second:
    var val2, raw2 := CalcFunc(b, res);
    assert Cached(a.data16) && a.data16 == old@second(a.data16);
    r := val1 - val2;
  }

  lemma RegeneratedFacts(d: u16)
    ensures d / 0x100 * 0x100 + d / 0x100 == Regenerated(d) && Regenerated(Regenerated(d)) == Regenerated(d)
  {
    Arith.DivIs(Regenerated(d), 0x100, Upper(d), Upper(d));
  }

  // Compares by index; without a result record it also rebuilds both items from their backup.
  method CmpIdx(a: ListData, b: ListData, res: CoreResults?) returns (r: int)
    modifies a`data16, b`data16
    ensures r == a.idx - b.idx
    ensures res == null ==> a.data16 == Regenerated(old(a.data16)) && b.data16 == Regenerated(old(b.data16))
    ensures res != null ==> a.data16 == old(a.data16) && b.data16 == old(b.data16)
  {
    RegeneratedFacts(a.data16);
    RegeneratedFacts(b.data16);
    hide Regenerated;
    if res == null {
      a.data16 := a.data16 / 0x100 * 0x100 + a.data16 / 0x100;
      RegeneratedFacts(b.data16);
      b.data16 := b.data16 / 0x100 * 0x100 + b.data16 / 0x100;
    }
    r := a.idx - b.idx;
  }
}
