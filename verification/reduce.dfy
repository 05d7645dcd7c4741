/** The type-seeded left fold of reduce_method_extra.rb: the starting
    accumulator is picked from the class of the first element, then the
    block is applied to the accumulator and each element in turn. */
module Reduce {

  /** The Ruby values the fold can meet, by class. */
  datatype Value =
    | Str(s: string)
    | Int(n: int)
    | Arr(elems: seq<Value>)
    | Nil
    | Other

  /** `arr[0]`: nil when the array is empty. */
  function First(arr: seq<Value>): (v: Value)
    ensures |arr| > 0 ==> v == arr[0]
    ensures |arr| == 0 ==> v == Nil
  {
    if |arr| == 0 then Nil else arr[0]
  }

  /** The starting accumulator: an empty value of the first element's class
      when that class is String, Integer or Array, and nil otherwise. */
  function Seed(arr: seq<Value>): (r: Value)
    ensures |arr| > 0 && arr[0].Str? ==> r == Str("")
    ensures |arr| > 0 && arr[0].Int? ==> r == Int(0)
    ensures |arr| > 0 && arr[0].Arr? ==> r == Arr([])
    ensures r == Nil <==> |arr| == 0 || arr[0].Nil? || arr[0].Other?
  {
    match First(arr)
    case Str(_) => Str("")
    case Int(_) => Int(0)
    case Arr(_) => Arr([])
    case _ => Nil
  }

  /** Only the first element's class decides the seed: its contents and
      everything after it do not matter. */
  lemma SeedOnlyFromFirstClass(a: seq<Value>, b: seq<Value>)
    requires |a| > 0 && |b| > 0
    requires a[0].Str? == b[0].Str? && a[0].Int? == b[0].Int? && a[0].Arr? == b[0].Arr?
    ensures Seed(a) == Seed(b)
  {
  }

  /** Appending elements never changes the seed of a non-empty array. */
  lemma SeedIgnoresLater(a: seq<Value>, rest: seq<Value>)
    requires |a| > 0
    ensures Seed(a + rest) == Seed(a)
  {
    assert (a + rest)[0] == a[0];
  }

  /** The reference fold: `f` applied left to right from `acc`. */
  function FoldLeft(f: (Value, Value) -> Value, acc: Value, s: seq<Value>): Value
    decreases |s|
  {
    if |s| == 0 then acc else FoldLeft(f, f(acc, s[0]), s[1..])
  }

  /** Folding one more element applies `f` once more, at the end. */
  lemma {:induction false} FoldLeftSnoc(f: (Value, Value) -> Value, acc: Value, s: seq<Value>, x: Value)
    ensures FoldLeft(f, acc, s + [x]) == f(FoldLeft(f, acc, s), x)
    decreases |s|
  {
    if |s| == 0 {
      assert s + [x] == [x];
      assert [x][1..] == [];
    } else {
      assert (s + [x])[1..] == s[1..] + [x];
      FoldLeftSnoc(f, f(acc, s[0]), s[1..], x);
    }
  }

  /** `reduce(arr) { |acc, v| ... }`: also returns, in order, the arguments
      of every call of the block. */
  method Reduce(arr: seq<Value>, f: (Value, Value) -> Value) returns (total: Value, calls: seq<(Value, Value)>)
    ensures total == FoldLeft(f, Seed(arr), arr)
    ensures |calls| == |arr|
    ensures forall i :: 0 <= i < |calls| ==> calls[i].1 == arr[i]
    ensures |calls| > 0 ==> calls[0].0 == Seed(arr)
    ensures forall i :: 0 <= i < |calls| - 1 ==> calls[i + 1].0 == f(calls[i].0, calls[i].1)
    ensures |calls| > 0 ==> total == f(calls[|calls| - 1].0, calls[|calls| - 1].1)
    ensures |arr| == 0 ==> total == Nil
  {
    total := Seed(arr);
    calls := [];
    var i := 0;
    while i < |arr|
      invariant 0 <= i <= |arr|
      invariant total == FoldLeft(f, Seed(arr), arr[..i])
      invariant |calls| == i
      invariant forall j :: 0 <= j < i ==> calls[j].1 == arr[j]
      invariant i > 0 ==> calls[0].0 == Seed(arr)
      invariant forall j :: 0 <= j < i - 1 ==> calls[j + 1].0 == f(calls[j].0, calls[j].1)
      invariant i > 0 ==> total == f(calls[i - 1].0, calls[i - 1].1)
      invariant i == 0 ==> total == Seed(arr)
    {
      calls := calls + [(total, arr[i])];
      FoldLeftSnoc(f, Seed(arr), arr[..i], arr[i]);
      assert arr[..i + 1] == arr[..i] + [arr[i]];
      total := f(total, arr[i]);
      i := i + 1;
    }
    assert arr[..i] == arr;
  }
}
