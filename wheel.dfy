/**
 * The tables of the sequence model's data pipeline: the order of the numbers
 * round the wheel and its inverse, the Big/Orph/Small classes and their
 * indices, and the sliding windows the dataset and the prediction loop cut
 * from a spin history.
 */
module Wheel {
  import opened Seqs
  import opened Roulette

  /** The numbers in the order they sit round a European wheel, starting at 0. */
  const WheelLayout: seq<int> :=
    [0, 32, 15, 19, 4, 21, 2, 25, 17, 34, 6, 27, 13, 36, 11, 30, 8, 23, 10, 5, 24, 16, 33, 1, 20,
     14, 31, 9, 22, 18, 29, 7, 28, 12, 35, 3, 26]

  /** {x: i for i, x in enumerate(s)}: a later occurrence overrides an earlier one. */
  function IndexMap<T(!new)>(s: seq<T>): (m: map<T, nat>)
    ensures forall x :: x in m <==> x in s
    ensures forall x :: x in m ==> m[x] < |s| && s[m[x]] == x
    ensures forall x :: x in m ==> forall j :: m[x] < j < |s| ==> s[j] != x
  {
    if s == [] then map[] else IndexMap(s[..|s| - 1])[s[|s| - 1] := |s| - 1]
  }

  /** On a list without repetition, the index map sends every entry back to its index. */
  lemma IndexMapInverse<T(!new)>(s: seq<T>)
    requires Distinct(s)
    ensures forall i :: 0 <= i < |s| ==> s[i] in IndexMap(s) && IndexMap(s)[s[i]] == i
  {
    var m := IndexMap(s);
    forall i | 0 <= i < |s|
      ensures s[i] in m && m[s[i]] == i
    {
      assert s[i] in s;
      assert s[m[s[i]]] == s[i];
    }
  }

  const NumberToPosition: map<int, nat> := IndexMap(WheelLayout)

  /** Where the spins 0..18 sit on the wheel. */
  lemma WheelCoversLow()
    ensures forall n :: 0 <= n < 19 ==> n in WheelLayout
  {
    var where := [0, 23, 6, 35, 4, 19, 10, 31, 16, 27, 18, 14, 33, 12, 25, 2, 21, 8, 29];
    forall n | 0 <= n < 19
      ensures n in WheelLayout
    {
      assert WheelLayout[where[n]] == n;
    }
  }

  /** Where the spins 19..36 sit on the wheel. */
  lemma WheelCoversHigh()
    ensures forall n :: 19 <= n < 37 ==> n in WheelLayout
  {
    var where := [3, 24, 5, 28, 17, 20, 7, 36, 11, 32, 30, 15, 26, 1, 22, 9, 34, 13];
    forall n | 19 <= n < 37
      ensures n in WheelLayout
    {
      assert WheelLayout[where[n - 19]] == n;
    }
  }

  /** Every spin has a pocket on the wheel. */
  lemma WheelCoversSpins()
    ensures forall n :: 0 <= n < 37 ==> n in WheelLayout
  {
    WheelCoversLow();
    WheelCoversHigh();
  }

  /** Nothing but spins sits on the wheel. */
  lemma WheelHoldsSpins()
    ensures |WheelLayout| == 37
    ensures forall i :: 0 <= i < 37 ==> IsSpin(WheelLayout[i])
  {
  }

  /** The wheel holds every spin exactly once. */
  lemma WheelIsPermutation()
    ensures |WheelLayout| == 37
    ensures forall n :: n in WheelLayout <==> IsSpin(n)
    ensures Distinct(WheelLayout)
  {
    WheelCoversSpins();
    WheelHoldsSpins();
    CoverImpliesDistinct(WheelLayout, 37);
  }

  /** NUMBER_TO_POSITION and WHEEL_LAYOUT are inverse to each other on the spins and positions. */
  lemma PositionInverse()
    ensures forall n :: n in NumberToPosition <==> IsSpin(n)
    ensures forall n :: IsSpin(n) ==> NumberToPosition[n] < 37 && WheelLayout[NumberToPosition[n]] == n
    ensures forall p :: 0 <= p < 37 ==> NumberToPosition[WheelLayout[p]] == p
  {
    WheelIsPermutation();
    IndexMapInverse(WheelLayout);
  }

  /** The index of the last class that holds x. */
  function LastClass(x: int, classes: seq<NamedList>): (o: Option<nat>)
    ensures o.None? <==> forall k :: 0 <= k < |classes| ==> x !in classes[k].numbers
    ensures o.Some? ==> o.value < |classes| && x in classes[o.value].numbers
    ensures o.Some? ==> forall j :: o.value < j < |classes| ==> x !in classes[j].numbers
  {
    if classes == [] then None
    else if x in classes[|classes| - 1].numbers then Some(|classes| - 1)
    else LastClass(x, classes[..|classes| - 1])
  }

  /**
   * {num: cls for cls, nums in classes for num in nums}: a number gets a class
   * exactly when some class holds it, and a later class overrides an earlier one.
   */
  function ClassMap(classes: seq<NamedList>): (m: map<int, string>)
    ensures forall x :: x in m <==> LastClass(x, classes).Some?
    ensures forall x :: x in m ==> m[x] == classes[LastClass(x, classes).value].name
  {
    if classes == [] then map[]
    else
      var c := classes[|classes| - 1];
      var m := ClassMap(classes[..|classes| - 1]);
      m + map x | x in c.numbers :: c.name
  }

  const NumberToClass: map<int, string> := ClassMap(ClassLists)

  /** The class names in dict order, taken from the class lists. */
  const ClassNames: seq<string> := seq(|ClassLists|, k requires 0 <= k < |ClassLists| => ClassLists[k].name)

  const ClassToIndex: map<string, nat> := IndexMap(ClassNames)

  /** Each sector's numbers belong to the last class that holds them, its own. */
  lemma LastClassOfSpin(n: int)
    ensures n in Voisins ==> LastClass(n, ClassLists) == Some(0)
    ensures n in Orphelins ==> LastClass(n, ClassLists) == Some(1)
    ensures n in Tiers ==> LastClass(n, ClassLists) == Some(2)
    ensures !IsSpin(n) ==> LastClass(n, ClassLists).None?
  {
    SectorsPartition();
    var c := ClassLists;
    assert c[..2][..1] == [c[0]] && c[..2] == [c[0], c[1]] && c[..3] == c;
    assert n in Voisins <==> n in c[0].numbers;
    assert n in Orphelins <==> n in c[1].numbers;
    assert n in Tiers <==> n in c[2].numbers;
  }

  /** Every spin has exactly one class, the one whose sector holds it; nothing else has one. */
  lemma ClassOfSpin()
    ensures forall n :: n in NumberToClass <==> IsSpin(n)
    ensures forall n :: n in Voisins ==> n in NumberToClass && NumberToClass[n] == "Big"
    ensures forall n :: n in Orphelins ==> n in NumberToClass && NumberToClass[n] == "Orph"
    ensures forall n :: n in Tiers ==> n in NumberToClass && NumberToClass[n] == "Small"
  {
    SectorsPartition();
    forall n
      ensures n in NumberToClass <==> IsSpin(n)
      ensures n in Voisins ==> n in NumberToClass && NumberToClass[n] == "Big"
      ensures n in Orphelins ==> n in NumberToClass && NumberToClass[n] == "Orph"
      ensures n in Tiers ==> n in NumberToClass && NumberToClass[n] == "Small"
    {
      LastClassOfSpin(n);
    }
  }

  /** CLASS_TO_INDEX numbers the classes 0, 1, 2, and the key list at that index gives the class back. */
  lemma ClassIndexInverse()
    ensures ClassToIndex.Keys == {"Big", "Orph", "Small"}
    ensures ClassToIndex["Big"] == 0 && ClassToIndex["Orph"] == 1 && ClassToIndex["Small"] == 2
    ensures forall c :: c in ClassToIndex ==> ClassNames[ClassToIndex[c]] == c
  {
    assert Distinct(ClassNames);
    IndexMapInverse(ClassNames);
    assert ClassNames[0] == "Big" && ClassNames[1] == "Orph" && ClassNames[2] == "Small";
  }

  /** A number's position holds that number on the wheel. */
  lemma PositionRoundTrip()
    ensures forall n :: n in NumberToPosition ==> NumberToPosition[n] < |WheelLayout| && WheelLayout[NumberToPosition[n]] == n
  {
  }

  /** A class's index holds that class in the key list. */
  lemma ClassIndexRoundTrip()
    ensures forall c :: c in ClassToIndex ==> ClassToIndex[c] < |ClassNames| && ClassNames[ClassToIndex[c]] == c
  {
  }

  /** Every class a number gets has an index. */
  lemma ClassesHaveIndices()
    ensures forall n :: n in NumberToClass ==> NumberToClass[n] in ClassToIndex
  {
    forall n | n in NumberToClass
      ensures NumberToClass[n] in ClassToIndex
    {
      var k := LastClass(n, ClassLists).value;
      assert ClassLists[k].name == ClassNames[k];
    }
  }

  /** The lookups __init__ makes succeed on every spin and on nothing else. */
  lemma SpinLookups()
    ensures forall n :: n in NumberToPosition <==> IsSpin(n)
    ensures forall n :: n in NumberToClass <==> IsSpin(n)
  {
    WheelIsPermutation();
    ClassOfSpin();
  }

  /**
   * The three lookup tables the dataset encodes a spin with: its wheel
   * position, its class name and the index of that class.
   */
  datatype Tables = Tables(position: map<int, nat>, classOf: map<int, string>, classIndex: map<string, nat>)

  /** The module-level tables NUMBER_TO_POSITION, NUMBER_TO_CLASS and CLASS_TO_INDEX. */
  const Encoding: Tables := Tables(NumberToPosition, NumberToClass, ClassToIndex)

  /** The dataset's tensors: the numbers, their wheel positions and their class indices. */
  datatype Dataset = Dataset(data: seq<int>, positions: seq<nat>, classes: seq<nat>, sequenceLength: int)

  /** The number n has a position and a class with an index in t. */
  predicate Encodable(t: Tables, n: int) {
    n in t.position && n in t.classOf && t.classOf[n] in t.classIndex
  }

  /** pos and cls are the wheel position and the class index of the spin n. */
  ghost predicate Images(t: Tables, n: int, pos: nat, cls: nat) {
    Encodable(t, n) && pos == t.position[n] && cls == t.classIndex[t.classOf[n]]
  }

  /** What __init__ builds: positions and class indices are the images of the numbers. */
  ghost predicate WellFormed(t: Tables, ds: Dataset) {
    |ds.positions| == |ds.data| && |ds.classes| == |ds.data|
    && forall i :: 0 <= i < |ds.data| ==> Images(t, ds.data[i], ds.positions[i], ds.classes[i])
  }

  /** [NUMBER_TO_POSITION[num] for num in data] */
  function Positions(t: Tables, data: seq<int>): (r: seq<nat>)
    requires forall i :: 0 <= i < |data| ==> data[i] in t.position
    ensures |r| == |data| && forall i :: 0 <= i < |data| ==> r[i] == t.position[data[i]]
  {
    seq(|data|, i requires 0 <= i < |data| && data[i] in t.position => t.position[data[i]])
  }

  /** [CLASS_TO_INDEX[NUMBER_TO_CLASS[num]] for num in data] */
  function ClassIndices(t: Tables, data: seq<int>): (r: seq<nat>)
    requires forall i :: 0 <= i < |data| ==> Encodable(t, data[i])
    ensures |r| == |data|
    ensures forall i :: 0 <= i < |data| ==> Encodable(t, data[i]) && r[i] == t.classIndex[t.classOf[data[i]]]
  {
    seq(|data|, i requires 0 <= i < |data| && Encodable(t, data[i]) => t.classIndex[t.classOf[data[i]]])
  }

  /** RouletteDataset(data, sequence_length); None where a lookup would raise KeyError. */
  function MakeDataset(t: Tables, data: seq<int>, sequenceLength: int): (r: Option<Dataset>)
    ensures r.Some? <==> forall i :: 0 <= i < |data| ==> Encodable(t, data[i])
    ensures r.Some? ==> WellFormed(t, r.value) && r.value.data == data && r.value.sequenceLength == sequenceLength
  {
    if forall i :: 0 <= i < |data| ==> Encodable(t, data[i]) then
      Some(Dataset(data, Positions(t, data), ClassIndices(t, data), sequenceLength))
    else None
  }

  /** With the module's tables, every spin can be encoded and nothing else can. */
  lemma EncodableSpins(n: int)
    ensures Encodable(Encoding, n) <==> IsSpin(n)
  {
    SpinLookups();
    ClassesHaveIndices();
  }

  /** The dataset can be built exactly from a history of spins. */
  lemma DatasetOfSpins(data: seq<int>, sequenceLength: int)
    ensures MakeDataset(Encoding, data, sequenceLength).Some? <==> forall i :: 0 <= i < |data| ==> IsSpin(data[i])
  {
    forall i | 0 <= i < |data|
      ensures Encodable(Encoding, data[i]) <==> IsSpin(data[i])
    {
      EncodableSpins(data[i]);
    }
  }

  /** The images of a number under the module's tables lead back to it through the wheel layout and the class key list. */
  lemma ImagesRoundTrip(n: int, pos: nat, cls: nat)
    requires Images(Encoding, n, pos, cls)
    ensures pos < |WheelLayout| && WheelLayout[pos] == n
    ensures cls < |ClassNames| && n in NumberToClass && ClassNames[cls] == NumberToClass[n]
  {
    PositionRoundTrip();
    ClassIndexRoundTrip();
  }

  /** len(dataset): the number of windows, or None where len() refuses a negative length. */
  function Length(ds: Dataset): (n: Option<nat>)
    ensures n.Some? <==> ds.sequenceLength <= |ds.data|
    ensures n.Some? ==> n.value + ds.sequenceLength == |ds.data|
  {
    if |ds.data| - ds.sequenceLength >= 0 then Some(|ds.data| - ds.sequenceLength) else None
  }

  /** One sample: a window of numbers, positions and classes, and the three values that follow it. */
  datatype Item = Item(xNums: seq<int>, xPos: seq<nat>, xCls: seq<nat>, yNum: int, yPos: nat, yCls: nat)

  /** Any slice of a well-formed dataset keeps the numbers' images side by side. */
  lemma SliceImages(t: Tables, ds: Dataset, a: nat, b: nat)
    requires WellFormed(t, ds) && a <= b <= |ds.data|
    ensures forall j :: 0 <= j < b - a ==> Images(t, ds.data[a..b][j], ds.positions[a..b][j], ds.classes[a..b][j])
  {
    forall j | 0 <= j < b - a
      ensures Images(t, ds.data[a..b][j], ds.positions[a..b][j], ds.classes[a..b][j])
    {
      assert ds.data[a..b][j] == ds.data[a + j];
      assert ds.positions[a..b][j] == ds.positions[a + j];
      assert ds.classes[a..b][j] == ds.classes[a + j];
    }
  }

  /**
   * dataset[idx]: the window starting at idx and the number after it, with the
   * positions and classes of exactly those numbers.
   */
  function GetItem(t: Tables, ds: Dataset, idx: nat): (r: Item)
    requires WellFormed(t, ds) && ds.sequenceLength >= 0
    requires idx + ds.sequenceLength < |ds.data|
    ensures r.xNums == ds.data[idx..idx + ds.sequenceLength] && r.yNum == ds.data[idx + ds.sequenceLength]
    ensures |r.xPos| == |r.xCls| == ds.sequenceLength
    ensures forall j :: 0 <= j < ds.sequenceLength ==> Images(t, r.xNums[j], r.xPos[j], r.xCls[j])
    ensures Images(t, r.yNum, r.yPos, r.yCls)
  {
    var L := ds.sequenceLength;
    SliceImages(t, ds, idx, idx + L);
    Item(ds.data[idx..idx + L], ds.positions[idx..idx + L], ds.classes[idx..idx + L],
         ds.data[idx + L], ds.positions[idx + L], ds.classes[idx + L])
  }

  /** The windows predict_for_csv walks: i = 0, 1, ..., len(data) - L - 1. */
  method PredictionWindows(data: seq<int>, sequenceLength: nat) returns (windows: seq<(seq<int>, int)>)
    ensures |windows| == if |data| > sequenceLength then |data| - sequenceLength else 0
    ensures forall i :: 0 <= i < |windows| ==>
      windows[i] == (data[i..i + sequenceLength], data[i + sequenceLength])
  {
    windows := [];
    var n := |data| - sequenceLength;
    var i := 0;
    while i < n
      invariant 0 <= i && (n >= 0 ==> i <= n) && (n < 0 ==> i == 0)
      invariant |windows| == i
      invariant forall k :: 0 <= k < i ==> windows[k] == (data[k..k + sequenceLength], data[k + sequenceLength])
    {
      var sequence := data[i..i + sequenceLength];
      var actualNext := data[i + sequenceLength];
      windows := windows + [(sequence, actualNext)];
      i := i + 1;
    }
  }

  /** On an encodable history, the prediction loop visits exactly the dataset's samples, in order. */
  lemma PredictionMatchesDataset(t: Tables, data: seq<int>, sequenceLength: nat, windows: seq<(seq<int>, int)>)
    requires MakeDataset(t, data, sequenceLength).Some?
    requires |windows| == if |data| > sequenceLength then |data| - sequenceLength else 0
    requires forall i :: 0 <= i < |windows| ==>
      windows[i] == (data[i..i + sequenceLength], data[i + sequenceLength])
    ensures |data| >= sequenceLength ==> Length(MakeDataset(t, data, sequenceLength).value) == Some(|windows|)
    ensures forall i :: 0 <= i < |windows| ==>
      windows[i] == (GetItem(t, MakeDataset(t, data, sequenceLength).value, i).xNums,
                     GetItem(t, MakeDataset(t, data, sequenceLength).value, i).yNum)
  {
    var ds := MakeDataset(t, data, sequenceLength).value;
    forall i | 0 <= i < |windows|
      ensures windows[i] == (GetItem(t, ds, i).xNums, GetItem(t, ds, i).yNum)
    {
      var item := GetItem(t, ds, i);
    }
  }
}
