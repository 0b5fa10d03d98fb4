/** The Swift reader of records, and that it reads what the Python one reads. */
module CedbSwiftReader {
  import opened Wrappers
  import opened Sequences
  import opened Bytes
  import opened CedbSwift
  import Cedb

  function U16At(data: seq<Byte>, at: nat): Int16U
    requires at + 2 <= |data|
  {
    FromLeReads(data[at..at + 2]);
    Powers();
    FromLe(data[at..at + 2])
  }

  function U32At(data: seq<Byte>, at: nat): Int32U
    requires at + 4 <= |data|
  {
    FromLeReads(data[at..at + 4]);
    Powers();
    FromLe(data[at..at + 4])
  }

  function U64At(data: seq<Byte>, at: nat): Int64U
    requires at + 8 <= |data|
  {
    FromLeReads(data[at..at + 8]);
    Powers();
    FromLe(data[at..at + 8])
  }

  lemma {:induction false} UnitRead(data: seq<Byte>, at: nat)
    requires at + 2 <= |data|
    ensures U16At(data, at) == Cedb.CodeUnit(data[at], data[at + 1])
  {
    var two := data[at..at + 2];
    assert two == [data[at], data[at + 1]] && two[1..] == [data[at + 1]] && two[1..][1..] == [];
    assert FromLe(two) == two[0] + 256 * FromLe(two[1..]);
  }

  lemma {:induction false} UnitsStep(data: seq<Byte>, at: nat)
    requires at + 1 < |data|
    ensures Cedb.UnitsAt(data, at)
         == if U16At(data, at) == 0 then [] else [U16At(data, at)] + Cedb.UnitsAt(data, at + 2)
  {
    UnitRead(data, at);
  }

  lemma {:induction false} UnitsEnd(data: seq<Byte>, at: nat)
    requires at <= |data| <= at + 1
    ensures Cedb.UnitsAt(data, at) == []
  {
  }

  method ReadString(data: seq<Byte>, offset: int) returns (r: Result<seq<Cedb.Unit>, Cedb.CedbError>)
    ensures r == Cedb.ReadText(data, offset)
  {
    if offset < 0 || offset >= |data| {
      return Failure(Cedb.OutsideRecord(offset, 0, |data|));
    }
    var units: seq<Cedb.Unit> := [];
    var index := offset;
    ghost var whole := Cedb.UnitsAt(data, offset);
    while index + 1 < |data|
      invariant offset <= index <= |data|
      invariant whole == units + Cedb.UnitsAt(data, index)
    {
      UnitsStep(data, index);
      var unit := U16At(data, index);
      if unit == 0 {
        assert units + [] == units;
        return Success(units);
      }
      assert units + ([unit] + Cedb.UnitsAt(data, index + 2)) == units + [unit] + Cedb.UnitsAt(data, index + 2);
      units := units + [unit];
      index := index + 2;
    }
    UnitsEnd(data, index);
    assert units + [] == units;
    return Success(units);
  }

  function SignedOf(bits: nat, bound: nat): int
  {
    if bits < bound / 2 then bits else bits - bound
  }

  function UnpackValue(kind: Kind, data: seq<Byte>, union: nat): Result<Value, Cedb.CedbError>
    requires union + 8 <= |data|
  {
    match kind
    case String =>
      (match Cedb.ReadText(data, U32At(data, union))
       case Failure(e) => Failure(e)
       case Success(units) => Success(StringValue(units)))
    case Blob =>
      (match Cedb.Slice(data, U32At(data, union + 4), U32At(data, union))
       case Failure(e) => Failure(e)
       case Success(octets) => Success(BlobValue(octets)))
    case I2 => Success(IntValue(SignedOf(U16At(data, union), TWO16)))
    case UI2 => Success(UIntValue(U16At(data, union)))
    case I4 => Success(IntValue(SignedOf(U32At(data, union), TWO32)))
    case UI4 => Success(UIntValue(U32At(data, union)))
    case Bool => Success(BoolValue(U32At(data, union) != 0))
    case Filetime => Success(FiletimeValue(U64At(data, union)))
    case R8 => Success(DoubleValue(U64At(data, union)))
    case Unknown(_) => Success(RawValue(data[union..union + 8]))
  }

  function UnpackEntry(data: seq<Byte>, start: nat): Result<PropVal, Cedb.CedbError>
    requires start + 16 <= |data|
  {
    var cepropid := U32At(data, start);
    var flags := U16At(data, start + 6);
    var (propId, kind) := (cepropid / TWO16, KindOf(cepropid % TWO16));
    if Cedb.NotFound(flags) then Success(PropVal(propId, kind, MissingValue, flags))
    else
      match UnpackValue(kind, data, start + 8)
      case Failure(e) => Failure(e)
      case Success(value) => Success(PropVal(propId, kind, value, flags))
  }

  function UnpackFrom(data: seq<Byte>, index: nat, count: nat): Result<seq<PropVal>, Cedb.CedbError>
    requires index <= count && count * Cedb.PROPVAL_SIZE <= |data|
    decreases count - index
  {
    if index == count then Success([])
    else
      match UnpackEntry(data, index * Cedb.PROPVAL_SIZE)
      case Failure(e) => Failure(e)
      case Success(p) =>
        match UnpackFrom(data, index + 1, count)
        case Failure(e) => Failure(e)
        case Success(rest) => Success([p] + rest)
  }

  function Unpacked(data: seq<Byte>, count: int): Result<seq<PropVal>, Cedb.CedbError> {
    if count < 0 || count * Cedb.PROPVAL_SIZE > |data| then Failure(Cedb.Truncated(count, |data|))
    else UnpackFrom(data, 0, count)
  }

  // ----- agreement -----

  function ToPythonOne(r: Result<PropVal, Cedb.CedbError>): Result<Cedb.PropVal, Cedb.CedbError> {
    match r
    case Failure(e) => Failure(e)
    case Success(p) => Success(ToPython(p))
  }

  function ToPythonMany(r: Result<seq<PropVal>, Cedb.CedbError>): Result<seq<Cedb.PropVal>, Cedb.CedbError> {
    match r
    case Failure(e) => Failure(e)
    case Success(props) => Success(AllToPython(props))
  }

  function ToPythonRead(r: Result<Value, Cedb.CedbError>): Result<Cedb.Value, Cedb.CedbError> {
    match r
    case Failure(e) => Failure(e)
    case Success(value) => Success(ToPythonValue(value))
  }

  lemma {:induction false} Distribute(a: nat, p: nat, h: nat)
    ensures 256 * (a + p * h) == 256 * a + 256 * p * h
  {
  }

  lemma {:induction false} FromLeSplit(low: seq<Byte>, high: seq<Byte>)
    ensures FromLe(low + high) == FromLe(low) + Power256(|low|) * FromLe(high)
  {
    if low == [] {
      assert low + high == high;
    } else {
      FromLeSplit(low[1..], high);
      assert (low + high)[1..] == low[1..] + high && (low + high)[0] == low[0];
      Distribute(FromLe(low[1..]), Power256(|low| - 1), FromLe(high));
    }
  }

  lemma {:induction false} DoubleRead(eight: seq<Byte>)
    requires |eight| == 8
    ensures FromLe(eight) < TWO32 * TWO32
    ensures Le(FromLe(eight), 8) == eight
    ensures FromLe(eight) == FromLe(eight[4..]) * TWO32 + FromLe(eight[..4])
  {
    FromLeReads(eight);
    Powers();
    assert eight == eight[..4] + eight[4..];
    FromLeSplit(eight[..4], eight[4..]);
  }

  lemma {:induction false} ValuesRead(code: Int16U, data: seq<Byte>, union: nat)
    requires union + 8 <= |data|
    ensures Cedb.UnpackValue(code, data[union..union + 8], data)
         == ToPythonRead(UnpackValue(KindOf(code), data, union))
  {
    EightSlices(data, union);
    if code == Cedb.CEVT_FILETIME || code == Cedb.CEVT_R8 {
      DoubleRead(data[union..union + 8]);
    }
  }

  lemma {:induction false} EightSlices(data: seq<Byte>, union: nat)
    requires union + 8 <= |data|
    ensures var eight := data[union..union + 8];
      && eight[..2] == data[union..union + 2] && eight[..4] == data[union..union + 4]
      && eight[4..] == data[union + 4..union + 8]
  {
    SliceOfSlice(data, union, 8, 0, 2);
    SliceOfSlice(data, union, 8, 0, 4);
    SliceOfSlice(data, union, 8, 4, 8);
  }

  lemma {:induction false} EntriesRead(data: seq<Byte>, start: nat)
    requires start + 16 <= |data|
    ensures Cedb.UnpackEntry(data[start..start + 16], data) == ToPythonOne(UnpackEntry(data, start))
  {
    var entry := data[start..start + 16];
    SliceOfSlice(data, start, 16, 0, 4);
    SliceOfSlice(data, start, 16, 6, 8);
    SliceOfSlice(data, start, 16, 8, 16);
    assert entry[..4] == entry[0..4] && entry[8..] == entry[8..16];
    ValuesRead(U32At(data, start) % TWO16, data, start + 8);
  }

  /** An entry read, then the rest: an error of either, or both. */
  function Joined<T, E>(first: Result<T, E>, rest: Result<seq<T>, E>): Result<seq<T>, E> {
    match first
    case Failure(e) => Failure(e)
    case Success(p) => match rest case Failure(e) => Failure(e) case Success(more) => Success([p] + more)
  }

  lemma {:induction false} PythonStep(data: seq<Byte>, index: nat, count: nat)
    requires index < count && count * Cedb.PROPVAL_SIZE <= |data|
    ensures var start := index * Cedb.PROPVAL_SIZE;
      && start + 16 <= |data|
      && Cedb.UnpackFrom(data, index, count)
         == Joined(Cedb.UnpackEntry(data[start..start + 16], data), Cedb.UnpackFrom(data, index + 1, count))
  {
    assert (index + 1) * Cedb.PROPVAL_SIZE == index * Cedb.PROPVAL_SIZE + 16;
  }

  lemma {:induction false} SwiftStep(data: seq<Byte>, index: nat, count: nat)
    requires index < count && count * Cedb.PROPVAL_SIZE <= |data|
    ensures var start := index * Cedb.PROPVAL_SIZE;
      && start + 16 <= |data|
      && UnpackFrom(data, index, count) == Joined(UnpackEntry(data, start), UnpackFrom(data, index + 1, count))
  {
  }

  /** What the two readers make of one entry. */
  lemma {:induction false} EntryStep(data: seq<Byte>, index: nat, count: nat)
    returns (python: Result<Cedb.PropVal, Cedb.CedbError>, swift: Result<PropVal, Cedb.CedbError>)
    requires index < count && count * Cedb.PROPVAL_SIZE <= |data|
    ensures python == ToPythonOne(swift)
    ensures Cedb.UnpackFrom(data, index, count) == Joined(python, Cedb.UnpackFrom(data, index + 1, count))
    ensures UnpackFrom(data, index, count) == Joined(swift, UnpackFrom(data, index + 1, count))
  {
    var start := index * Cedb.PROPVAL_SIZE;
    PythonStep(data, index, count);
    SwiftStep(data, index, count);
    EntriesRead(data, start);
    python, swift := Cedb.UnpackEntry(data[start..start + 16], data), UnpackEntry(data, start);
  }

  lemma {:induction false} BothStep(
    python: Result<Cedb.PropVal, Cedb.CedbError>, swift: Result<PropVal, Cedb.CedbError>,
    pythonRest: Result<seq<Cedb.PropVal>, Cedb.CedbError>, swiftRest: Result<seq<PropVal>, Cedb.CedbError>)
    requires python == ToPythonOne(swift) && pythonRest == ToPythonMany(swiftRest)
    ensures Joined(python, pythonRest) == ToPythonMany(Joined(swift, swiftRest))
  {
    if swift.Success? && swiftRest.Success? {
      assert ([swift.value] + swiftRest.value)[1..] == swiftRest.value;
    }
  }

  lemma {:induction false} RecordsRead(data: seq<Byte>, index: nat, count: nat)
    requires index <= count && count * Cedb.PROPVAL_SIZE <= |data|
    ensures Cedb.UnpackFrom(data, index, count) == ToPythonMany(UnpackFrom(data, index, count))
    decreases count - index
  {
    if index < count {
      RecordsRead(data, index + 1, count);
      var python, swift := EntryStep(data, index, count);
      StepsAgree(data, index, count, python, swift);
    }
  }

  lemma {:induction false} StepsAgree(data: seq<Byte>, index: nat, count: nat,
                                      python: Result<Cedb.PropVal, Cedb.CedbError>,
                                      swift: Result<PropVal, Cedb.CedbError>)
    requires index < count && count * Cedb.PROPVAL_SIZE <= |data|
    requires python == ToPythonOne(swift)
    requires Cedb.UnpackFrom(data, index + 1, count) == ToPythonMany(UnpackFrom(data, index + 1, count))
    requires Cedb.UnpackFrom(data, index, count) == Joined(python, Cedb.UnpackFrom(data, index + 1, count))
    requires UnpackFrom(data, index, count) == Joined(swift, UnpackFrom(data, index + 1, count))
    ensures Cedb.UnpackFrom(data, index, count) == ToPythonMany(UnpackFrom(data, index, count))
  {
    BothStep(python, swift, Cedb.UnpackFrom(data, index + 1, count), UnpackFrom(data, index + 1, count));
  }

  /** On any octets both readers give the same properties, or the same error, exactly when the count is not negative. */
  lemma {:induction false} ReadersAgree(data: seq<Byte>, count: int)
    ensures Cedb.Unpacked(data, count) == ToPythonMany(Unpacked(data, count)) <==> count >= 0
  {
    if 0 <= count && count * Cedb.PROPVAL_SIZE <= |data| {
      RecordsRead(data, 0, count);
    }
  }

  /** A count of -1: no properties in Python, an error in Swift. */
  lemma {:induction false} NegativeCountDiffers(data: seq<Byte>)
    ensures Cedb.Unpacked(data, -1) == Success([])
    ensures Unpacked(data, -1) == Failure(Cedb.Truncated(-1, |data|))
  {
  }
}
