/**
 * The store roster: identifiers `STORE_001` ... `STORE_050`, the closed sets
 * of store types and regions, and the per-store metadata fixed once at the
 * start of a run. Random choices arrive as a `StoreDraw` per store.
 */
module Stores {
  import Digits

  datatype StoreType = Urban | Suburban | Highway | Mall | Airport

  datatype Region = North | South | East | West | Central

  /** The list `random.choice` picks a store type from. */
  const StoreTypes: seq<StoreType> := [Urban, Suburban, Highway, Mall, Airport]

  /** The list `random.choice` picks a region from. */
  const Regions: seq<Region> := [North, South, East, West, Central]

  /** The number of stores in the roster: `range(1, 51)`. */
  const StoreCount := 50

  const StorePrefix := "STORE_"

  /**
   * The random outcomes for one store, drawn in this order: type, region,
   * `randint(800, 2500)` baseline, `uniform(0.8, 1.3)` size factor.
   */
  datatype StoreDraw = StoreDraw(storeType: StoreType, region: Region, baseline: int, sizeFactor: real)

  datatype StoreMeta = StoreMeta(
    storeId: string,
    storeType: StoreType,
    region: Region,
    avgDailyBaseline: int,
    sizeFactor: real)

  /** `f"STORE_{str(i).zfill(3)}"`. */
  function StoreId(i: nat): string
  {
    StorePrefix + Digits.ZFill(Digits.Decimal(i), 3)
  }

  /** The identifiers of stores 1 to `n`, in roster order. */
  function StoreIds(n: nat): seq<string>
  {
    seq(n, k requires 0 <= k => StoreId(k + 1))
  }

  /** The metadata of stores 1 to `n`, the k-th built from the k-th draw. */
  function Roster(n: nat, storeDraw: nat -> StoreDraw): (stores: seq<StoreMeta>)
    ensures |stores| == n
    ensures forall k :: 0 <= k < n ==>
      stores[k].storeId == StoreIds(n)[k]
      && stores[k].storeType == storeDraw(k).storeType
      && stores[k].region == storeDraw(k).region
      && stores[k].avgDailyBaseline == storeDraw(k).baseline
      && stores[k].sizeFactor == storeDraw(k).sizeFactor
  {
    seq(n, k requires 0 <= k < n =>
      var draw := storeDraw(k);
      StoreMeta(StoreIds(n)[k], draw.storeType, draw.region, draw.baseline, draw.sizeFactor))
  }

  /** Both choice lists hold every value of their type exactly once. */
  lemma ChoiceListsComplete()
    ensures |StoreTypes| == 5 && forall t: StoreType :: t in StoreTypes
    ensures |Regions| == 5 && forall r: Region :: r in Regions
    ensures forall i, j :: 0 <= i < j < 5 ==> StoreTypes[i] != StoreTypes[j] && Regions[i] != Regions[j]
  {
    forall t: StoreType ensures t in StoreTypes {
      match t
      case Urban => assert StoreTypes[0] == t;
      case Suburban => assert StoreTypes[1] == t;
      case Highway => assert StoreTypes[2] == t;
      case Mall => assert StoreTypes[3] == t;
      case Airport => assert StoreTypes[4] == t;
    }
    forall r: Region ensures r in Regions {
      match r
      case North => assert Regions[0] == r;
      case South => assert Regions[1] == r;
      case East => assert Regions[2] == r;
      case West => assert Regions[3] == r;
      case Central => assert Regions[4] == r;
    }
  }

  /** An identifier below 1000 is the prefix and three digits that read back as the store number. */
  lemma StoreIdDigits(i: nat)
    requires i < 1000
    ensures |StoreId(i)| == 9 && StoreId(i)[..6] == StorePrefix
    ensures Digits.IsDigits(StoreId(i)[6..]) && Digits.ValueOf(StoreId(i)[6..]) == i
  {
    assert Digits.Pow10(3) == 1000;
    Digits.ZFillWidth(i, 3);
    Digits.ZFillDecimalValue(i, 3);
    var s := StoreId(i);
    assert s[..6] == StorePrefix && s[6..] == Digits.ZFill(Digits.Decimal(i), 3);
  }

  /** Distinct store numbers below 1000 give distinct identifiers. */
  lemma StoreIdInjective(i: nat, j: nat)
    requires i < 1000 && j < 1000
    requires StoreId(i) == StoreId(j)
    ensures i == j
  {
    StoreIdDigits(i);
    StoreIdDigits(j);
  }

  /** Below 1000, identifiers sort as strings exactly as their numbers sort. */
  lemma StoreIdOrder(i: nat, j: nat)
    requires i < 1000 && j < 1000
    ensures Digits.LexLess(StoreId(i), StoreId(j)) <==> i < j
  {
    assert Digits.Pow10(3) == 1000;
    Digits.ZFillWidth(i, 3);
    Digits.ZFillWidth(j, 3);
    Digits.ZFillDecimalValue(i, 3);
    Digits.ZFillDecimalValue(j, 3);
    var a, b := Digits.ZFill(Digits.Decimal(i), 3), Digits.ZFill(Digits.Decimal(j), 3);
    Digits.LexLessCommonPrefix(StorePrefix, a, b);
    Digits.LexLessDigitsIsNumeric(a, b);
  }

  /** The roster's identifiers are strictly increasing as strings, hence pairwise distinct. */
  lemma StoreIdsIncreasing(n: nat)
    requires n < 1000
    ensures forall i, j :: 0 <= i < j < n ==> Digits.LexLess(StoreIds(n)[i], StoreIds(n)[j])
    ensures forall i, j :: 0 <= i < j < n ==> StoreIds(n)[i] != StoreIds(n)[j]
  {
    forall i, j | 0 <= i < j < n
      ensures Digits.LexLess(StoreIds(n)[i], StoreIds(n)[j])
      ensures StoreIds(n)[i] != StoreIds(n)[j]
    {
      StoreIdOrder(i + 1, j + 1);
      if StoreIds(n)[i] == StoreIds(n)[j] {
        Digits.LexLessIrreflexive(StoreIds(n)[i]);
      }
    }
  }

  /** The roster has 50 stores, named `STORE_001` to `STORE_050`. */
  lemma RosterIdentifiers()
    ensures |StoreIds(StoreCount)| == 50
    ensures StoreIds(StoreCount)[0] == "STORE_001"
    ensures StoreIds(StoreCount)[1] == "STORE_002"
    ensures StoreIds(StoreCount)[49] == "STORE_050"
  {
    assert Digits.Decimal(1) == "1";
    assert Digits.Decimal(2) == "2";
    assert Digits.Decimal(50) == "50";
  }
}
