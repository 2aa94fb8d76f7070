/** The two lookup tables the decoder consults, built the way the driver's
    constructor builds them (epoc.py lines 53-62 and 85-94; the thread's
    constructor in epoc_iohub.py lines 37-46 and 69-78 builds the same ones). */
module Tables {
  import opened Wrappers
  import opened Electrodes

  /** Python's `list * n`: n copies of s, one after another. */
  function Repeat<T>(s: seq<T>, n: nat): (r: seq<T>)
    ensures |r| == n * |s|
    ensures n > 0 ==> r[..|s|] == s
    ensures forall i :: |s| <= i < |r| ==> r[i] == r[i - |s|]
    decreases n
  {
    if n == 0 then [] else s + Repeat(s, n - 1)
  }

  /** The schedule's first sixteen entries, for counter values 0-15. */
  const CqHead: seq<Option<Electrode>> :=
    [Some(F3), Some(FC5), Some(AF3), Some(F7), Some(T7), Some(P7), Some(O1),
     Some(O2), Some(P8), Some(T8), Some(F8), Some(AF4), Some(FC6), Some(F4),
     Some(F8), Some(AF4)]

  /** `cqOrder`: which electrode's contact quality a data frame with a given
      counter carries, or None where that is unknown. Built step by step as
      the constructor does: the head, 48 unknowns, the head again, FC6, and
      then twelve copies of the last four entries. */
  function CqOrder(): (t: seq<Option<Electrode>>)
    ensures |t| == 129
  {
    var unknown := CqHead + seq(48, _ => None);
    var again := unknown + unknown[..16];
    var closed := again + [Some(FC6)];
    closed + Repeat(closed[|closed| - 4..], 12)
  }

  /** The schedule as a closed formula of the counter value. */
  function Schedule(k: nat): Option<Electrode>
  {
    if k < 16 then CqHead[k]
    else if k < 64 then None
    else if k < 80 then CqHead[k - 64]
    else if k == 80 then Some(FC6)
    else [Some(F4), Some(F8), Some(AF4), Some(FC6)][(k - 81) % 4]
  }

  /** The layout of `cqOrder` as the constructor builds it: 129 entries, the
      last one beyond any 7-bit counter. */
  lemma CqOrderLayout()
    ensures |CqOrder()| == 129
    ensures CqOrder()[..16] == CqHead
    ensures forall k :: 16 <= k < 64 ==> CqOrder()[k] == None
    ensures CqOrder()[64..80] == CqOrder()[..16]
    ensures CqOrder()[80] == Some(FC6)
    ensures forall k :: 81 <= k <= 128 ==> CqOrder()[k] == CqOrder()[77 + (k - 81) % 4]
  {
    var t := CqOrder();
    var unknown := CqHead + seq(48, _ => None);
    var again := unknown + unknown[..16];
    var closed := again + [Some(FC6)];
    var tail := Repeat(closed[|closed| - 4..], 12);
    assert t == closed + tail;
    assert |closed| == 81;
    assert t[..16] == unknown[..16] by {
      assert t[..16] == closed[..16] == again[..16];
    }
    assert t[64..80] == unknown[..16] by {
      assert t[64..80] == closed[64..80] == again[64..80];
    }
    forall k | 81 <= k <= 128
      ensures t[k] == t[77 + (k - 81) % 4]
    {
      PeriodFour(tail, k - 81);
      assert tail[(k - 81) % 4] == closed[77 + (k - 81) % 4];
    }
  }

  /** A sequence that repeats with period four agrees with its first four entries. */
  lemma {:induction false} PeriodFour<T>(s: seq<T>, i: nat)
    requires i < |s|
    requires forall j :: 4 <= j < |s| ==> s[j] == s[j - 4]
    ensures s[i] == s[i % 4]
    decreases i
  {
    if i >= 4 {
      PeriodFour(s, i - 4);
    }
  }

  /** The constructed table agrees with the closed formula at every index. */
  lemma CqOrderIsSchedule()
    ensures forall k :: 0 <= k < |CqOrder()| ==> CqOrder()[k] == Schedule(k)
  {
    CqOrderLayout();
    var t := CqOrder();
    forall k | 0 <= k < |t|
      ensures t[k] == Schedule(k)
    {
      if 64 <= k < 80 {
        assert t[k] == t[64..80][k - 64];
      } else if k > 80 {
        assert t[k] == t[77 + (k - 81) % 4];
      }
    }
  }

  /** Exactly the counters 16-63 name no electrode; every other 7-bit
      counter names one. */
  lemma UnknownCounters(c: nat)
    requires c < 128
    ensures Schedule(c).None? <==> 16 <= c < 64
  {
  }

  /** The literal part of `battery_levels`, for raw values 226-247. */
  const BatteryLiteral: map<int, int> :=
    map[247 := 99, 246 := 97, 245 := 93, 244 := 89, 243 := 85,
        242 := 82, 241 := 77, 240 := 72, 239 := 66, 238 := 62,
        237 := 55, 236 := 46, 235 := 32, 234 := 20, 233 := 12,
        232 := 6, 231 := 4, 230 := 3, 229 := 2, 228 := 1,
        227 := 1, 226 := 1]

  /** Python's `range(lo, hi)`. */
  function Range(lo: int, hi: int): (r: seq<int>)
    requires lo <= hi
    ensures |r| == hi - lo
    ensures forall k :: k in r <==> lo <= k < hi
    decreases hi - lo
  {
    if lo == hi then [] else [lo] + Range(lo + 1, hi)
  }

  /** `dict.fromkeys(range(lo, hi), v)`, the argument of each `update`. */
  function FromKeys(lo: int, hi: int, v: int): (r: map<int, int>)
    requires lo <= hi
    ensures forall k :: k in r <==> lo <= k < hi
    ensures forall k :: k in r ==> r[k] == v
  {
    map k | k in Range(lo, hi) :: v
  }

  /** Python's `d.update(u)`: every key of either, the value from `u` where
      both have one. */
  function Update(d: map<int, int>, u: map<int, int>): (r: map<int, int>)
    ensures forall k :: k in r <==> k in d || k in u
    ensures forall k :: k in u ==> r[k] == u[k]
    ensures forall k :: k in d && k !in u ==> r[k] == d[k]
  {
    d + u
  }

  /** `battery_levels`: the literal, then 248-255 set to 100, then 128-225 set
      to 0, one `update` after the other. */
  function BatteryLevels(): (m: map<int, int>)
    ensures forall k :: k in m ==> k in BatteryLiteral || 128 <= k < 256
    ensures forall k :: k in BatteryLiteral ==> k in m
    ensures forall k :: 128 <= k < 226 ==> k in m && m[k] == 0
    ensures forall k :: 248 <= k < 256 ==> k in m && m[k] == 100
  {
    Update(Update(BatteryLiteral, FromKeys(248, 256, 100)), FromKeys(128, 226, 0))
  }

  /** The percentages of the literal part, for raw values 226, 227, ..., 247 in turn. */
  const LiteralLevels: seq<int> :=
    [1, 1, 1, 2, 3, 4, 6, 12, 20, 32, 46, 55, 62, 66, 72, 77, 82, 85, 89, 93, 97, 99]

  /** The battery table as a closed formula of the raw value: None where the
      dict has no entry. */
  function BatteryPercent(raw: int): Option<int>
  {
    if 248 <= raw < 256 then Some(100)
    else if 226 <= raw < 248 then Some(LiteralLevels[raw - 226])
    else if 128 <= raw < 226 then Some(0)
    else None
  }

  lemma LiteralEntry(k: int)
    requires 226 <= k < 248
    ensures k in BatteryLiteral && BatteryLiteral[k] == LiteralLevels[k - 226]
  {
    assert k == 226 || k == 227 || k == 228 || k == 229 || k == 230 || k == 231 || k == 232 || k == 233 || k == 234 || k == 235 || k == 236 || k == 237 || k == 238 || k == 239 || k == 240 || k == 241 || k == 242 || k == 243 || k == 244 || k == 245 || k == 246 || k == 247;
  }

  lemma LiteralKeys(k: int)
    requires k in BatteryLiteral
    ensures 226 <= k < 248
  {
  }

  /** The dict the constructor builds is exactly the closed formula. */
  lemma BatteryLevelsAgree(k: int)
    ensures k in BatteryLevels() <==> BatteryPercent(k).Some?
    ensures k in BatteryLevels() ==> BatteryLevels()[k] == BatteryPercent(k).value
  {
    if k in BatteryLiteral {
      LiteralKeys(k);
    }
    if 226 <= k < 248 {
      LiteralEntry(k);
    }
  }

  /** `battery_levels` is defined for exactly the raw values 128-255 (those
      with the battery flag bit set), and every level is a percentage. */
  lemma BatteryDomain()
    ensures forall k :: k in BatteryLevels() <==> 128 <= k < 256
    ensures forall k :: k in BatteryLevels() ==> 0 <= BatteryLevels()[k] <= 100
  {
    forall k
      ensures k in BatteryLevels() <==> 128 <= k < 256
      ensures k in BatteryLevels() ==> 0 <= BatteryLevels()[k] <= 100
    {
      BatteryLevelsAgree(k);
      if 226 <= k < 248 {
        LiteralLevelsSorted(0, k - 226);
        LiteralLevelsSorted(k - 226, |LiteralLevels| - 1);
      }
    }
  }

  /** The three parts of `battery_levels`. */
  lemma BatterySegments()
    ensures forall k :: 128 <= k < 226 ==> BatteryLevels()[k] == 0
    ensures forall k :: 226 <= k < 248 ==> k in BatteryLiteral && BatteryLevels()[k] == BatteryLiteral[k]
    ensures forall k :: 248 <= k < 256 ==> BatteryLevels()[k] == 100
  {
    forall k | 128 <= k < 226
      ensures BatteryLevels()[k] == 0
    {
      BatteryLevelsAgree(k);
    }
    forall k | 226 <= k < 248
      ensures k in BatteryLiteral && BatteryLevels()[k] == BatteryLiteral[k]
    {
      BatteryLevelsAgree(k);
      LiteralEntry(k);
    }
    forall k | 248 <= k < 256
      ensures BatteryLevels()[k] == 100
    {
      BatteryLevelsAgree(k);
    }
  }

  /** Sample entries: the ends of the literal part and one value from each default range. */
  lemma BatteryExamples()
    ensures BatteryLevels()[247] == 99 && BatteryLevels()[226] == 1
    ensures BatteryLevels()[250] == 100 && BatteryLevels()[200] == 0
  {
    BatteryLevelsAgree(247);
    BatteryLevelsAgree(226);
    BatteryLevelsAgree(250);
    BatteryLevelsAgree(200);
  }

  /** The literal percentages never decrease from one raw value to the next. */
  lemma LiteralLevelsStep(i: nat)
    requires i + 1 < |LiteralLevels|
    ensures LiteralLevels[i] <= LiteralLevels[i + 1]
  {
    assert i == 0 || i == 1 || i == 2 || i == 3 || i == 4 || i == 5 || i == 6 || i == 7 || i == 8 || i == 9 || i == 10 || i == 11 || i == 12 || i == 13 || i == 14 || i == 15 || i == 16 || i == 17 || i == 18 || i == 19 || i == 20;
  }

  lemma {:induction false} LiteralLevelsSorted(i: nat, j: nat)
    requires i <= j < |LiteralLevels|
    ensures LiteralLevels[i] <= LiteralLevels[j]
    decreases j - i
  {
    if i < j {
      LiteralLevelsStep(i);
      LiteralLevelsSorted(i + 1, j);
    }
  }

  /** The closed formula never decreases over the codes 128-255. */
  /** Every code with the battery flag set has a level, and it is a percentage. */
  lemma PercentBounded(raw: int)
    requires 128 <= raw < 256
    ensures BatteryPercent(raw).Some?
    ensures 0 <= BatteryPercent(raw).value <= 100
  {
    if 226 <= raw < 248 {
      LiteralLevelsSorted(0, raw - 226);
      LiteralLevelsSorted(raw - 226, |LiteralLevels| - 1);
    }
  }

  lemma PercentMonotonic(a: int, b: int)
    requires 128 <= a <= b < 256
    ensures BatteryPercent(a).value <= BatteryPercent(b).value
  {
    if 226 <= a < 248 {
      LiteralLevelsSorted(a - 226, |LiteralLevels| - 1);
      if b < 248 {
        LiteralLevelsSorted(a - 226, b - 226);
      }
    } else if 226 <= b < 248 {
      LiteralLevelsSorted(0, b - 226);
    }
  }

  /** A fuller battery code never reads as a lower percentage. */
  lemma BatteryMonotonic()
    ensures forall a, b :: a in BatteryLevels() && b in BatteryLevels() && a <= b ==>
      BatteryLevels()[a] <= BatteryLevels()[b]
  {
    forall a, b | a in BatteryLevels() && b in BatteryLevels() && a <= b
      ensures BatteryLevels()[a] <= BatteryLevels()[b]
    {
      BatteryLevelsAgree(a);
      BatteryLevelsAgree(b);
      PercentMonotonic(a, b);
    }
  }
}
