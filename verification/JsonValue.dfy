/** JSON documents as Python holds them: a dictionary keeps its keys in order and
  holds each once.  The readers at the end are str, int, float, bool and str.lower. */
module JsonValue {
  import opened Prelude
  import opened PyText

  datatype Item<+T> = Item(key: string, value: T)

  datatype Json = Null
                | Bool(flag: bool)
                | Int(number: int)
                | Float(fraction: real)
                | Str(text: string)
                | List(elements: seq<Json>)
                | Dict(items: seq<Item<Json>>)

  type Items = seq<Item<Json>>

  function Get<T>(items: seq<Item<T>>, key: string): Option<T> {
    if items == [] then None
    else if items[0].key == key then Some(items[0].value)
    else Get(items[1..], key)
  }

  // items[key] = value
  function Put<T>(items: seq<Item<T>>, key: string, value: T): seq<Item<T>> {
    if items == [] then [Item(key, value)]
    else if items[0].key == key then [Item(key, value)] + items[1..]
    else [items[0]] + Put(items[1..], key, value)
  }

  predicate Distinct<T>(items: seq<Item<T>>) {
    forall i, j :: 0 <= i < j < |items| ==> items[i].key != items[j].key
  }

  predicate WellFormed(items: Items) {
    Distinct(items) && forall i :: 0 <= i < |items| && items[i].value.Dict? ==> WellFormed(items[i].value.items)
  }

  // The dictionary stored under a key, {} if there is none.
  function Sub(items: Items, key: string): Items {
    var found := Get(items, key);
    if found.Some? && found.value.Dict? then found.value.items else []
  }

  lemma {:induction false} GetOfPut<T>(items: seq<Item<T>>, key: string, value: T, k: string)
    ensures Get(Put(items, key, value), k) == if k == key then Some(value) else Get(items, k)
  {
    if items != [] && items[0].key != key { GetOfPut(items[1..], key, value, k); }
  }

  lemma {:induction false} PutSame<T>(items: seq<Item<T>>, key: string, value: T)
    requires Get(items, key) == Some(value)
    ensures Put(items, key, value) == items
  {
    assert items == [items[0]] + items[1..];
    if items[0].key != key { PutSame(items[1..], key, value); }
  }

  lemma {:induction false} PutNew<T>(items: seq<Item<T>>, key: string, value: T)
    requires forall i :: 0 <= i < |items| ==> items[i].key != key
    ensures Put(items, key, value) == items + [Item(key, value)]
  {
    if items != [] {
      PutNew(items[1..], key, value);
      assert items + [Item(key, value)] == [items[0]] + (items[1..] + [Item(key, value)]);
    }
  }

  lemma {:induction false} GetAt<T>(items: seq<Item<T>>, i: nat)
    requires Distinct(items) && i < |items|
    ensures Get(items, items[i].key) == Some(items[i].value)
  {
    if i > 0 {
      assert items[1..][i - 1] == items[i];
      GetAt(items[1..], i - 1);
    }
  }

  lemma GetEach<T>(items: seq<Item<T>>)
    requires Distinct(items)
    ensures forall i :: 0 <= i < |items| ==> Get(items, items[i].key) == Some(items[i].value)
  {
    forall i | 0 <= i < |items| ensures Get(items, items[i].key) == Some(items[i].value) { GetAt(items, i); }
  }

  lemma {:induction false} GetOfLonger<T>(items: seq<Item<T>>, more: seq<Item<T>>, key: string)
    requires Get(items, key).Some?
    ensures Get(items + more, key) == Get(items, key)
  {
    assert (items + more)[1..] == items[1..] + more;
    if items[0].key != key { GetOfLonger(items[1..], more, key); }
  }

  lemma {:induction false} GetOfFront<T>(items: seq<Item<T>>, key: string)
    requires items != []
    ensures var n := |items| - 1;
            Get(items, key) == if Get(items[..n], key).Some? then Get(items[..n], key)
                               else if items[n].key == key then Some(items[n].value) else None
  {
    var n := |items| - 1;
    if n > 0 {
      assert items[1..][..n - 1] == items[..n][1..];
      GetOfFront(items[1..], key);
    }
  }

  lemma {:induction false} KeysOfPut<T>(items: seq<Item<T>>, key: string, value: T)
    ensures forall item :: item in Put(items, key, value) ==> item == Item(key, value) || item in items
    ensures Distinct(items) ==> Distinct(Put(items, key, value))
  {
    if items != [] && items[0].key != key {
      KeysOfPut(items[1..], key, value);
      var rest := Put(items[1..], key, value);
      if Distinct(items) {
        forall i | 0 <= i < |rest| ensures rest[i].key != items[0].key { assert rest[i] in rest; }
      }
    }
  }

  // ---------------------------------------------------------------------- equality

  function Numeric(j: Json): Option<real> {
    match j
    case Bool(flag) => Some(if flag then 1.0 else 0.0)
    case Int(number) => Some(number as real)
    case Float(value) => Some(value)
    case _ => None
  }

  // Python's ==, which looks through the order of keys and the kind of a number.
  predicate Equal(a: Json, b: Json) {
    if a.Dict? then
      && b.Dict? && |a.items| == |b.items|
      && (forall i :: 0 <= i < |a.items| ==>
            var other := Get(b.items, a.items[i].key); other.Some? && Equal(a.items[i].value, other.value))
      && (forall i :: 0 <= i < |b.items| ==> Get(a.items, b.items[i].key).Some?)
    else if a.List? then
      && b.List? && |a.elements| == |b.elements|
      && forall i :: 0 <= i < |a.elements| ==> Equal(a.elements[i], b.elements[i])
    else if Numeric(a).Some? then Numeric(a) == Numeric(b)
    else a == b
  }

  lemma {:induction false} GetIsSomewhere<T>(items: seq<Item<T>>, key: string) returns (i: nat)
    requires Get(items, key).Some?
    ensures i < |items| && items[i].key == key && Get(items, key) == Some(items[i].value)
  {
    i := 0;
    if items[0].key != key {
      var k := GetIsSomewhere(items[1..], key);
      i := k + 1;
    }
  }

  // Equal dictionaries hold equal values under each key of the second.
  lemma EqualLooksUp(a: Items, b: Items, key: string)
    requires Equal(Dict(a), Dict(b)) && Get(b, key).Some?
    ensures Get(a, key).Some? && Equal(Get(a, key).value, Get(b, key).value)
  {
    var j := GetIsSomewhere(b, key);
    assert Get(a, b[j].key).Some?;
    var i := GetIsSomewhere(a, key);
    assert Equal(a[i].value, Get(b, a[i].key).value);
  }

  // A dictionary of equal values equals itself.
  lemma {:induction false} EqualsItself(d: Items)
    requires Distinct(d) && forall i :: 0 <= i < |d| ==> Equal(d[i].value, d[i].value)
    ensures Equal(Dict(d), Dict(d))
  {
    GetEach(d);
  }

  // -------------------------------------------------------------------- deep merge

  function Merged(base: Items, updates: Items): Items
    decreases updates
  {
    if updates == [] then base
    else
      var n := |updates| - 1;
      var merged, last := Merged(base, updates[..n]), updates[n];
      var found := Get(merged, last.key);
      if found.Some? && found.value.Dict? && last.value.Dict? then
        Put(merged, last.key, Dict(Merged(found.value.items, last.value.items)))
      else Put(merged, last.key, last.value)
  }

  method DeepMerge(base: Items, updates: Items) returns (result: Items)
    ensures result == Merged(base, updates)
    decreases updates
  {
    result := base;
    for i := 0 to |updates|
      invariant result == Merged(base, updates[..i])
    {
      assert updates[..i + 1][..i] == updates[..i];
      var key, value := updates[i].key, updates[i].value;
      var found := Get(result, key);
      if value.Dict? && found.Some? && found.value.Dict? {
        var inner := DeepMerge(found.value.items, value.items);
        result := Put(result, key, Dict(inner));
      } else {
        result := Put(result, key, value);
      }
    }
    assert updates[..|updates|] == updates;
  }

  // What a key holds after the merge: the base's value if the update does not name
  // it, both merged if both are dictionaries, else the update's value.
  lemma {:induction false} MergeLooksUp(base: Items, updates: Items, key: string)
    requires Distinct(updates)
    ensures Get(Merged(base, updates), key) == MergedValue(Get(base, key), Get(updates, key))
  {
    if updates != [] {
      var n := |updates| - 1;
      MergeLooksUp(base, updates[..n], key);
      GetOfFront(updates, key);
      if key == updates[n].key {
        NotBefore(updates, n);
      }
      var merged, last := Merged(base, updates[..n]), updates[n];
      var value := if Get(merged, last.key).Some? && Get(merged, last.key).value.Dict? && last.value.Dict? then
                     Dict(Merged(Get(merged, last.key).value.items, last.value.items)) else last.value;
      GetOfPut(merged, last.key, value, key);
    }
  }

  function MergedValue(base: Option<Json>, update: Option<Json>): Option<Json> {
    if update.None? then base
    else if base.Some? && base.value.Dict? && update.value.Dict? then
      Some(Dict(Merged(base.value.items, update.value.items)))
    else update
  }

  lemma {:induction false} NotBefore<T>(items: seq<Item<T>>, n: nat)
    requires Distinct(items) && n < |items|
    ensures Get(items[..n], items[n].key).None?
  {
    Absent(items[..n], items[n].key);
  }

  lemma {:induction false} Absent<T>(items: seq<Item<T>>, key: string)
    ensures Get(items, key).None? <==> forall i :: 0 <= i < |items| ==> items[i].key != key
  {
    if items != [] { Absent(items[1..], key); }
  }

  lemma {:induction false} MergePrefixOfItself(items: Items, n: nat)
    requires WellFormed(items) && n <= |items|
    ensures Merged(items, items[..n]) == items
    decreases items, n
  {
    if n > 0 {
      MergePrefixOfItself(items, n - 1);
      assert items[..n][..n - 1] == items[..n - 1];
      GetAt(items, n - 1);
      var value := items[n - 1].value;
      if value.Dict? {
        MergePrefixOfItself(value.items, |value.items|);
        assert value.items[..|value.items|] == value.items;
      }
      PutSame(items, items[n - 1].key, value);
    }
  }

  lemma {:induction false} MergeAgain(base: Items, updates: Items, n: nat)
    requires WellFormed(updates) && n <= |updates|
    ensures Merged(Merged(base, updates), updates[..n]) == Merged(base, updates)
    decreases updates, n
  {
    if n > 0 {
      var once, key, value := Merged(base, updates), updates[n - 1].key, updates[n - 1].value;
      MergeAgain(base, updates, n - 1);
      assert updates[..n][..n - 1] == updates[..n - 1];
      GetAt(updates, n - 1);
      MergeLooksUp(base, updates, key);
      if value.Dict? {
        var was := Get(base, key);
        if was.Some? && was.value.Dict? {
          MergeIsIdempotent(was.value.items, value.items);
        } else {
          MergePrefixOfItself(value.items, |value.items|);
          assert value.items[..|value.items|] == value.items;
        }
      }
      PutSame(once, key, Get(once, key).value);
    }
  }

  // Merging the same update a second time changes nothing, not even the order.
  lemma {:induction false} MergeIsIdempotent(base: Items, updates: Items)
    requires WellFormed(updates)
    ensures Merged(Merged(base, updates), updates) == Merged(base, updates)
    decreases updates, |updates| + 1
  {
    MergeAgain(base, updates, |updates|);
    assert updates[..|updates|] == updates;
  }

  lemma {:induction false} PutAt<T>(items: seq<Item<T>>, i: nat, value: T)
    requires Distinct(items) && i < |items|
    ensures Put(items, items[i].key, value) == items[i := Item(items[i].key, value)]
  {
    if i > 0 {
      assert items[1..][i - 1] == items[i];
      PutAt(items[1..], i - 1, value);
      assert items == [items[0]] + items[1..];
    }
  }

  predicate SameKeys(a: Items, b: Items) {
    |a| == |b| && forall i :: 0 <= i < |a| ==> a[i].key == b[i].key
  }

  function Both(base: Json, update: Json): Json {
    if base.Dict? && update.Dict? then Dict(Merged(base.items, update.items)) else update
  }

  // The first n keys merged, the others as they were.
  function Laid(base: Items, updates: Items, n: nat): Items
    requires SameKeys(base, updates)
  {
    seq(|base|, i requires 0 <= i < |base| =>
      if i < n then Item(base[i].key, Both(base[i].value, updates[i].value)) else base[i])
  }

  lemma {:induction false} MergePrefix(base: Items, updates: Items, n: nat)
    requires SameKeys(base, updates) && Distinct(updates) && n <= |base|
    ensures Merged(base, updates[..n]) == Laid(base, updates, n)
  {
    if n == 0 {
      assert Laid(base, updates, 0) == base;
    } else {
      MergePrefix(base, updates, n - 1);
      assert updates[..n][..n - 1] == updates[..n - 1];
      var before := Laid(base, updates, n - 1);
      GetAt(before, n - 1);
      PutAt(before, n - 1, Both(base[n - 1].value, updates[n - 1].value));
      assert Laid(base, updates, n)
          == before[n - 1 := Item(updates[n - 1].key, Both(base[n - 1].value, updates[n - 1].value))];
    }
  }

  // Merging two dictionaries with the same keys in the same order goes key by key.
  lemma MergeSameKeys(base: Items, updates: Items)
    requires SameKeys(base, updates) && Distinct(updates)
    ensures SameKeys(Merged(base, updates), updates)
    ensures forall i :: 0 <= i < |base| ==> Merged(base, updates)[i].value == Both(base[i].value, updates[i].value)
  {
    MergePrefix(base, updates, |base|);
    assert updates[..|base|] == updates;
  }

  // If no key has something to merge the update simply replaces them.
  lemma MergeReplacesAll(base: Items, updates: Items)
    requires SameKeys(base, updates) && Distinct(updates)
    requires forall i :: 0 <= i < |base| ==> Both(base[i].value, updates[i].value) == updates[i].value
    ensures Merged(base, updates) == updates
  {
    MergeSameKeys(base, updates);
    forall i | 0 <= i < |base| ensures Merged(base, updates)[i] == updates[i] {}
  }

  lemma MergeReplaces(base: Items, updates: Items)
    requires SameKeys(base, updates) && Distinct(updates)
    requires forall i :: 0 <= i < |base| ==> !updates[i].value.Dict?
    ensures Merged(base, updates) == updates
  {
    MergeReplacesAll(base, updates);
  }

  // ----------------------------------------------------------------------- readers

  // The library functions the model leaves open: the text of a number or container,
  // and case folding and number reading of texts that are not ASCII.
  datatype Python = Python(repr: Json -> string, lower: string -> string, readInt: string -> Option<int>,
                           readFloat: string -> Option<real>)

  predicate Ascii(s: string) {
    forall i :: 0 <= i < |s| ==> s[i] < '\U{80}'
  }

  function LowerChar(c: char): char {
    if 'A' <= c <= 'Z' then (c as int + 32) as char else c
  }

  function Lower(py: Python, s: string): string {
    if Ascii(s) then seq(|s|, i requires 0 <= i < |s| => LowerChar(s[i])) else py.lower(s)
  }

  predicate Truthy(j: Json) {
    match j
    case Null => false
    case Bool(flag) => flag
    case Int(number) => number != 0
    case Float(value) => value != 0.0
    case Str(text) => text != ""
    case List(elements) => elements != []
    case Dict(items) => items != []
  }

  // str(j)
  function Text(py: Python, j: Json): string {
    match j
    case Null => "None"
    case Bool(flag) => if flag then "True" else "False"
    case Str(text) => text
    case _ => py.repr(j)
  }

  function Truncated(r: real): int {
    if r >= 0.0 then r.Floor else -((-r).Floor)
  }

  // str(j or "").strip()
  function CleanOrEmpty(py: Python, j: Option<Json>): string {
    if j.Some? && Truthy(j.value) then Strip(Text(py, j.value)) else ""
  }

  // int(j); none where it raises TypeError or ValueError.
  function Whole(py: Python, j: Json): Option<int> {
    match j
    case Bool(flag) => Some(if flag then 1 else 0)
    case Int(number) => Some(number)
    case Float(value) => Some(Truncated(value))
    case Str(text) => if Ascii(text) then ReadInt(text) else py.readInt(text)
    case _ => None
  }

  // float(j)
  function Fraction(py: Python, j: Json): Option<real> {
    match j
    case Bool(flag) => Some(if flag then 1.0 else 0.0)
    case Int(number) => Some(number as real)
    case Float(value) => Some(value)
    case Str(text) => py.readFloat(text)
    case _ => None
  }

  // Lower-case ASCII words without blanks: strip and lower leave them alone.
  predicate Word(s: string) {
    forall i :: 0 <= i < |s| ==> 'a' <= s[i] <= 'z' || '0' <= s[i] <= '9' || s[i] == '_' || s[i] == '-'
  }

  lemma WordIsPlain(py: Python, s: string)
    requires Word(s)
    ensures Lower(py, Strip(s)) == s
  {
    assert Stripped(s);
    StripStrips(s);
    assert forall i :: 0 <= i < |s| ==> LowerChar(s[i]) == s[i];
  }

  // lower() of ASCII text: capital letters become small ones, all else stays, so two
  // texts that differ in case only become the same.
  lemma LowerFolds(py: Python, s: string)
    requires Ascii(s)
    ensures |Lower(py, s)| == |s|
    ensures forall i :: 0 <= i < |s| ==>
              Lower(py, s)[i] == if 'A' <= s[i] <= 'Z' then (s[i] as int - 'A' as int + 'a' as int) as char else s[i]
    ensures forall i :: 0 <= i < |s| ==> !('A' <= Lower(py, s)[i] <= 'Z')
  {}

  // int() of a number drops its fraction, towards zero.
  lemma TruncatesTowardsZero(x: real)
    ensures x >= 0.0 ==> 0.0 <= Truncated(x) as real <= x < Truncated(x) as real + 1.0
    ensures x <= 0.0 ==> Truncated(x) as real - 1.0 < x <= Truncated(x) as real <= 0.0
  {}
}
