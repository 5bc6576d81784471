/**
 * The collection and formatting helpers of appcd-util: `arrayify`,
 * `unique`, `formatNumber` and `mergeDeep`. Values are `Json` values, so
 * objects are compared and copied as values: the model has no object
 * identity and no aliasing between `dest` and `src`.
 */
module AppcdUtil {
  import opened Strings
  import opened JsValue

  // ---------------------------------------------------------------------
  // arrayify

  /** The values the `removeFalsey` filter drops: undefined, null, '', false and NaN (but not 0). */
  predicate Dropped(v: Json) {
    v.Undefined? || v.Null? || v == Str("") || v == Bool(false) || v.NaN?
  }

  /** `arr.filter(...)` with the predicate of `arrayify`. */
  function KeepPresent(s: seq<Json>): (r: seq<Json>)
    ensures |r| <= |s|
    ensures forall i :: 0 <= i < |r| ==> !Dropped(r[i])
    ensures forall x :: x in r <==> x in s && !Dropped(x)
  {
    if s == [] then []
    else if Dropped(s[0]) then KeepPresent(s[1..])
    else [s[0]] + KeepPresent(s[1..])
  }

  /** The filter keeps order: filtering a concatenation filters each part. */
  lemma {:induction false} KeepPresentAppend(a: seq<Json>, b: seq<Json>)
    ensures KeepPresent(a + b) == KeepPresent(a) + KeepPresent(b)
  {
    if a == [] {
      assert a + b == b;
    } else {
      assert (a + b)[0] == a[0];
      assert (a + b)[1..] == a[1..] + b;
      KeepPresentAppend(a[1..], b);
    }
  }

  /** A sequence with nothing to drop passes the filter unchanged. */
  lemma {:induction false} KeepPresentNothingDropped(s: seq<Json>)
    requires forall i :: 0 <= i < |s| ==> !Dropped(s[i])
    ensures KeepPresent(s) == s
  {
    if s != [] {
      KeepPresentNothingDropped(s[1..]);
    }
  }

  /** `arrayify(it, removeFalsey)`: the array itself, or `[it]`, filtered when `removeFalsey` is truthy. */
  function Arrayify(it: Json, removeFalsey: Json): (r: seq<Json>)
    ensures !Truthy(removeFalsey) ==> r == (if it.Arr? then it.items else [it])
    ensures Truthy(removeFalsey) ==>
              forall x :: x in r <==> x in (if it.Arr? then it.items else [it]) && !Dropped(x)
  {
    var arr := if it.Arr? then it.items else [it];
    if Truthy(removeFalsey) then KeepPresent(arr) else arr
  }

  /** With `removeFalsey`, the result is the input array minus its dropped values, in order. */
  lemma ArrayifyFilters(items: seq<Json>, removeFalsey: Json, i: nat)
    requires Truthy(removeFalsey) && i < |items|
    ensures Arrayify(Arr(items), removeFalsey) ==
            KeepPresent(items[..i]) + (if Dropped(items[i]) then [] else [items[i]]) + KeepPresent(items[i + 1..])
  {
    assert items == items[..i] + ([items[i]] + items[i + 1..]);
    KeepPresentAppend(items[..i], [items[i]] + items[i + 1..]);
    KeepPresentAppend([items[i]], items[i + 1..]);
  }

  /** Arrayifying an arrayified value changes nothing more. */
  lemma ArrayifyIdempotent(it: Json, removeFalsey: Json)
    ensures var once := Arrayify(it, removeFalsey);
            Arrayify(Arr(once), removeFalsey) == once
  {
    var once := Arrayify(it, removeFalsey);
    if Truthy(removeFalsey) {
      KeepPresentNothingDropped(once);
    }
  }

  // ---------------------------------------------------------------------
  // unique

  predicate Nullish(v: Json) {
    v.Undefined? || v.Null?
  }

  /**
   * `a === b`. NaN is never strictly equal to anything. Objects, arrays and
   * functions compare by reference in JavaScript; here they compare
   * structurally.
   */
  predicate StrictEq(a: Json, b: Json) {
    a == b && !a.NaN?
  }

  /** `s.indexOf(x)`: the first position holding a value strictly equal to `x`, or -1. */
  function IndexOf(s: seq<Json>, x: Json): (i: int)
    ensures -1 <= i < |s|
    ensures i == -1 <==> forall k :: 0 <= k < |s| ==> !StrictEq(s[k], x)
    ensures i >= 0 ==> StrictEq(s[i], x) && forall k :: 0 <= k < i ==> !StrictEq(s[k], x)
  {
    if s == [] then -1
    else if StrictEq(s[0], x) then 0
    else
      var j := IndexOf(s[1..], x);
      if j == -1 then -1 else j + 1
  }

  /** The accumulator of `unique`'s `reduce` after the elements of `s`. */
  function Uniq(s: seq<Json>): (r: seq<Json>)
    decreases |s|
  {
    if s == [] then []
    else
      var prev := Uniq(s[..|s| - 1]);
      var cur := s[|s| - 1];
      if !Nullish(cur) && IndexOf(prev, cur) == -1 then prev + [cur] else prev
  }

  /** The i-th element is not null or undefined and no earlier element is strictly equal to it. */
  predicate FirstOccurrence(s: seq<Json>, i: nat)
    requires i < |s|
  {
    !Nullish(s[i]) && forall k :: 0 <= k < i ==> !StrictEq(s[k], s[i])
  }

  /** The first occurrences of `s`, in input order. */
  function Firsts(s: seq<Json>): seq<Json>
    decreases |s|
  {
    if s == [] then []
    else Firsts(s[..|s| - 1]) + (if FirstOccurrence(s, |s| - 1) then [s[|s| - 1]] else [])
  }

  /** What `unique` keeps: exactly the values of the input that are not null or undefined. */
  lemma {:induction false} UniqMembers(s: seq<Json>)
    ensures forall x :: x in Uniq(s) <==> x in s && !Nullish(x)
    decreases |s|
  {
    if s != [] {
      var init := s[..|s| - 1];
      UniqMembers(init);
      assert s == init + [s[|s| - 1]];
    }
  }

  /** No two kept values are strictly equal, and none is null or undefined. */
  lemma {:induction false} UniqNoDuplicates(s: seq<Json>)
    ensures forall i :: 0 <= i < |Uniq(s)| ==> !Nullish(Uniq(s)[i])
    ensures forall i, j :: 0 <= i < j < |Uniq(s)| ==> !StrictEq(Uniq(s)[i], Uniq(s)[j])
    decreases |s|
  {
    if s != [] {
      var init := s[..|s| - 1];
      var prev := Uniq(init);
      var cur := s[|s| - 1];
      UniqNoDuplicates(init);
      if !Nullish(cur) && IndexOf(prev, cur) == -1 {
        var r := prev + [cur];
        assert Uniq(s) == r;
        assert forall i :: 0 <= i < |prev| ==> r[i] == prev[i] && !StrictEq(prev[i], cur);
        assert r[|prev|] == cur;
      } else {
        assert Uniq(s) == prev;
      }
    }
  }

  /** The reduce lists the first occurrences, in input order. */
  lemma {:induction false} UniqIsFirsts(s: seq<Json>)
    ensures Uniq(s) == Firsts(s)
    decreases |s|
  {
    if s != [] {
      var init := s[..|s| - 1];
      var cur := s[|s| - 1];
      UniqIsFirsts(init);
      UniqMembers(init);
      var prev := Uniq(init);
      if !Nullish(cur) {
        assert (IndexOf(prev, cur) == -1) <==> (cur.NaN? || cur !in prev);
        assert cur in prev <==> cur in init;
        assert (forall k :: 0 <= k < |init| ==> !StrictEq(s[k], cur)) <==> (cur.NaN? || cur !in init) by {
          assert forall k :: 0 <= k < |init| ==> init[k] == s[k];
        }
      }
    }
  }

  /** `unique(arr)`: `[]` unless `arr` is a non-empty array; otherwise the `reduce` loop. */
  method Unique(arr: Json) returns (r: seq<Json>)
    ensures !arr.Arr? ==> r == []
    ensures arr.Arr? ==> r == Uniq(arr.items)
  {
    var len := if arr.Arr? then |arr.items| else 0;
    if len == 0 {
      return [];
    }
    var items := arr.items;
    r := [];
    var i := 0;
    while i < |items|
      invariant 0 <= i <= |items|
      invariant r == Uniq(items[..i])
    {
      var cur := items[i];
      if !Nullish(cur) {
        if IndexOf(r, cur) == -1 {
          r := r + [cur];
        }
      }
      assert items[..i + 1][..i] == items[..i];
      i := i + 1;
    }
    assert items[..i] == items;
  }

  // ---------------------------------------------------------------------
  // formatNumber: String(n).replace(/\B(?=(\d{3})+(?!\d))/g, ',')

  /** Position `i` holds a `\w` character (positions outside the string do not). */
  predicate WordAt(s: string, i: int) {
    0 <= i < |s| && IsWordChar(s[i])
  }

  /** The lookahead `(?=(\d{3})+(?!\d))` succeeds at `i`: the digits from `i` are a positive multiple of three long. */
  predicate GroupsAhead(s: string, i: nat)
    requires i <= |s|
  {
    var d := DigitRun(s, i);
    d > 0 && Triples(d)
  }

  /** `(\d{3})+` matched against a run of `n` digits ending the number: `n` splits into whole groups of three. */
  predicate Triples(n: nat) {
    if n < 3 then n == 0 else Triples(n - 3)
  }

  lemma {:induction false} TriplesMod(n: nat)
    ensures Triples(n) <==> n % 3 == 0
  {
    if n >= 3 {
      TriplesMod(n - 3);
    }
  }

  /** The whole pattern matches the empty string at `i`: `\B` (no word boundary) and the lookahead. */
  predicate CommaAt(s: string, i: nat)
    requires i <= |s|
  {
    WordAt(s, i - 1) == WordAt(s, i) && GroupsAhead(s, i)
  }

  /** The global replace from position `i` on: a ',' at every position where the pattern matches. */
  function InsertCommas(s: string, i: nat): string
    requires i <= |s|
    decreases |s| - i
  {
    (if CommaAt(s, i) then "," else "") + (if i == |s| then "" else [s[i]] + InsertCommas(s, i + 1))
  }

  /** `formatNumber(n)` for an integer `n`. */
  function FormatNumber(n: int): string {
    InsertCommas(IntToString(n), 0)
  }

  function RemoveCommas(s: string): (r: string)
    ensures ',' !in r
  {
    if s == [] then [] else (if s[0] == ',' then "" else [s[0]]) + RemoveCommas(s[1..])
  }

  /** ',' followed by the digits of `t` three at a time. */
  function Grouped(t: string): (r: string)
    requires |t| % 3 == 0
  {
    if t == [] then "" else "," + t[..3] + Grouped(t[3..])
  }

  /** `t` cut into pieces of three. */
  function Chunks(t: string): (r: seq<string>)
    requires |t| % 3 == 0
    ensures forall i :: 0 <= i < |r| ==> |r[i]| == 3
  {
    if t == [] then [] else [t[..3]] + Chunks(t[3..])
  }

  lemma {:induction false} DigitRunOfDigits(s: string, i: nat)
    requires i <= |s| && forall j :: i <= j < |s| ==> IsDigit(s[j])
    ensures DigitRun(s, i) == |s| - i
    decreases |s| - i
  {
    if i < |s| {
      DigitRunOfDigits(s, i + 1);
    }
  }

  lemma {:induction false} InsertCommasRemoved(s: string, i: nat)
    requires i <= |s| && ',' !in s
    ensures RemoveCommas(InsertCommas(s, i)) == s[i..]
    decreases |s| - i
  {
    if i < |s| {
      InsertCommasRemoved(s, i + 1);
      var rest := [s[i]] + InsertCommas(s, i + 1);
      RemoveCommasCons(s[i], InsertCommas(s, i + 1));
      if CommaAt(s, i) {
        RemoveCommasCons(',', rest);
      } else {
        assert "" + rest == rest;
      }
      ConsSlice(s, i);
    } else {
      assert !CommaAt(s, i);
    }
  }

  lemma RemoveCommasCons(c: char, t: string)
    ensures RemoveCommas([c] + t) == (if c == ',' then "" else [c]) + RemoveCommas(t)
  {
    assert ([c] + t)[0] == c && ([c] + t)[1..] == t;
  }

  lemma ConsSlice(s: string, i: nat)
    requires i < |s|
    ensures [s[i]] + s[i + 1..] == s[i..]
  {
  }

  /** Deleting the commas of `formatNumber(n)` gives back `String(n)`. */
  lemma FormatNumberRemoveCommas(n: int)
    ensures RemoveCommas(FormatNumber(n)) == IntToString(n)
  {
    var s := IntToString(n);
    assert ',' !in s by {
      var ds := if n < 0 then NatToString(-n) else NatToString(n);
      assert forall j :: 0 <= j < |ds| ==> ds[j] != ',';
    }
    InsertCommasRemoved(s, 0);
  }

  /** From a position a multiple of three before the end of a digit string, each group gets its ','. */
  lemma {:induction false} InsertCommasTail(s: string, i: nat)
    requires AllDigits(s) && 1 <= i <= |s| && (|s| - i) % 3 == 0
    ensures InsertCommas(s, i) == Grouped(s[i..])
    decreases |s| - i
  {
    if i < |s| {
      InsertCommasGroup(s, i);
      InsertCommasTail(s, i + 3);
      assert s[i..][..3] == s[i..i + 3];
      assert s[i..][3..] == s[i + 3..];
    } else {
      DigitRunOfDigits(s, i);
      assert !CommaAt(s, i);
    }
  }

  /** One group: a ',' before its first digit and none before the other two. */
  lemma InsertCommasGroup(s: string, i: nat)
    requires AllDigits(s) && 1 <= i < |s| && (|s| - i) % 3 == 0
    ensures InsertCommas(s, i) == "," + s[i..i + 3] + InsertCommas(s, i + 3)
  {
    GroupCommas(s, i);
    var rest := InsertCommas(s, i + 3);
    assert InsertCommas(s, i + 2) == [s[i + 2]] + rest;
    assert InsertCommas(s, i + 1) == [s[i + 1]] + ([s[i + 2]] + rest);
    assert InsertCommas(s, i) == "," + ([s[i]] + ([s[i + 1]] + ([s[i + 2]] + rest)));
    assert s[i..i + 3] == [s[i], s[i + 1], s[i + 2]];
  }

  /** Inside a run of digits a multiple of three long, the pattern matches before the run and not in its first group. */
  lemma GroupCommas(s: string, i: nat)
    requires AllDigits(s) && 1 <= i < |s| && (|s| - i) % 3 == 0
    ensures i + 3 <= |s| && CommaAt(s, i) && !CommaAt(s, i + 1) && !CommaAt(s, i + 2)
  {
    DigitRunOfDigits(s, i);
    DigitRunOfDigits(s, i + 1);
    DigitRunOfDigits(s, i + 2);
    TriplesMod(|s| - i);
    TriplesMod(|s| - i - 1);
    TriplesMod(|s| - i - 2);
  }

  /** The length of the first group of `len` digits: 1 to 3, leaving a multiple of three. */
  function FirstGroup(len: nat): (h: nat)
    requires len >= 1
    ensures 1 <= h <= 3 && h <= len && (len - h) % 3 == 0
  {
    FirstGroupLength(len);
    (len - 1) % 3 + 1
  }

  lemma FirstGroupLength(len: nat)
    requires len >= 1
    ensures 1 <= (len - 1) % 3 + 1 <= 3 && (len - 1) % 3 + 1 <= len && (len - ((len - 1) % 3 + 1)) % 3 == 0
  {
    var q := (len - 1) / 3;
    var r := (len - 1) % 3;
    assert len - 1 == 3 * q + r;
    assert len - (r + 1) == 3 * q;
  }

  /** From the start of a digit string: the first 1-3 digits bare, then the groups. */
  lemma {:induction false} InsertCommasHead(s: string, i: nat)
    requires AllDigits(s) && |s| >= 1 && i <= FirstGroup(|s|)
    ensures var h := FirstGroup(|s|);
            InsertCommas(s, i) == s[i..h] + Grouped(s[h..])
    decreases |s| - i
  {
    var h := FirstGroup(|s|);
    if i == h {
      InsertCommasTail(s, h);
      SlicePrefix(s, i, h, Grouped(s[h..]));
    } else {
      NoCommaInFirstGroup(s, i);
      InsertCommasHead(s, i + 1);
      SlicePrefix(s, i, h, Grouped(s[h..]));
    }
  }

  lemma SlicePrefix(s: string, i: nat, h: nat, g: string)
    requires i <= h <= |s|
    ensures i == h ==> s[i..h] + g == g
    ensures i < h ==> [s[i]] + (s[i + 1..h] + g) == s[i..h] + g
  {
    if i < h {
      assert [s[i]] + s[i + 1..h] == s[i..h];
    }
  }

  /** Inside the first group no ',' is inserted. */
  lemma NoCommaInFirstGroup(s: string, i: nat)
    requires AllDigits(s) && |s| >= 1 && i < FirstGroup(|s|)
    ensures InsertCommas(s, i) == [s[i]] + InsertCommas(s, i + 1)
  {
    var h := FirstGroup(|s|);
    DigitRunOfDigits(s, i);
    if i > 0 {
      NotMultipleOfThree(|s| - h, h - i);
      TriplesMod(|s| - i);
    }
    assert !CommaAt(s, i);
  }

  lemma NotMultipleOfThree(a: int, d: int)
    requires a % 3 == 0 && 1 <= d <= 2
    ensures (a + d) % 3 != 0
  {
  }

  /**
   * For `n >= 0`, the first group has 1 to 3 digits and every later group,
   * each after its ',', exactly 3.
   */
  lemma FormatNumberGroups(n: nat)
    ensures var ds := NatToString(n);
            var h := FirstGroup(|ds|);
            1 <= h <= 3 && FormatNumber(n) == ds[..h] + Grouped(ds[h..])
  {
    var ds := NatToString(n);
    assert FormatNumber(n) == InsertCommas(ds, 0);
    InsertCommasHead(ds, 0);
    assert ds[0..FirstGroup(|ds|)] == ds[..FirstGroup(|ds|)];
  }

  /** A '-' in front takes no ',' and shifts every match by one position. */
  lemma {:induction false} InsertCommasShift(t: string, i: nat)
    requires AllDigits(t) && i <= |t|
    ensures InsertCommas("-" + t, i + 1) == InsertCommas(t, i)
    decreases |t| - i
  {
    var s := "-" + t;
    assert forall j :: i + 1 <= j < |s| ==> s[j] == t[j - 1];
    DigitRunOfDigits(s, i + 1);
    DigitRunOfDigits(t, i);
    assert WordAt(s, i) == WordAt(t, i - 1);
    assert CommaAt(s, i + 1) == CommaAt(t, i);
    if i < |t| {
      InsertCommasShift(t, i + 1);
    }
  }

  /** A negative number is formatted as '-' and the formatted magnitude. */
  lemma FormatNumberNegative(n: int)
    requires n < 0
    ensures FormatNumber(n) == "-" + FormatNumber(-n)
  {
    var t := NatToString(-n);
    var s := "-" + t;
    assert !CommaAt(s, 0);
    InsertCommasShift(t, 0);
  }

  /** Splitting on ',' a comma-free head followed by groups. */
  lemma {:induction false} SplitGrouped(a: string, t: string)
    requires ',' !in a && |t| % 3 == 0 && ',' !in t
    ensures Split(a + Grouped(t), ',') == [a] + Chunks(t)
    decreases |t|
  {
    if t == [] {
      assert a + Grouped(t) == a;
      SplitNoSeparator(a, ',');
    } else {
      assert ',' !in t[3..] && ',' !in t[..3];
      SplitGrouped(t[..3], t[3..]);
      assert a + Grouped(t) == a + [','] + (t[..3] + Grouped(t[3..]));
      SplitAfterSeparator(a, t[..3] + Grouped(t[3..]), ',');
    }
  }

  lemma {:induction false} SplitNoSeparator(a: string, sep: char)
    requires sep !in a
    ensures Split(a, sep) == [a]
  {
    if a != [] {
      SplitNoSeparator(a[1..], sep);
      assert [a[0]] + a[1..] == a;
    }
  }

  lemma {:induction false} SplitAfterSeparator(a: string, b: string, sep: char)
    requires sep !in a
    ensures Split(a + [sep] + b, sep) == [a] + Split(b, sep)
  {
    var s := a + [sep] + b;
    if a == [] {
      assert s[0] == sep && s[1..] == b;
    } else {
      assert s[0] == a[0] && s[1..] == a[1..] + [sep] + b;
      SplitAfterSeparator(a[1..], b, sep);
      assert [a[0]] + a[1..] == a;
    }
  }

  /** The ','-separated groups of `formatNumber(n)` for `n >= 0`: 1 to 3 digits first, then exactly 3 each. */
  lemma FormatNumberGroupSizes(n: nat)
    ensures var groups := Split(FormatNumber(n), ',');
            1 <= |groups[0]| <= 3 && forall i :: 1 <= i < |groups| ==> |groups[i]| == 3
  {
    var ds := NatToString(n);
    var h := FirstGroup(|ds|);
    FormatNumberGroups(n);
    assert forall j :: 0 <= j < |ds| ==> ds[j] != ',';
    assert ',' !in ds[..h] && ',' !in ds[h..];
    SplitGrouped(ds[..h], ds[h..]);
  }

  // ---------------------------------------------------------------------
  // mergeDeep

  /** The fields of `v` when it is a plain object; anything else is replaced by `{}`. */
  function FieldsOf(v: Json): map<string, Json> {
    if v.Obj? then v.fields else map[]
  }

  /** `m[key]`: undefined for a missing key. */
  function Get(m: map<string, Json>, key: string): Json {
    if key in m then m[key] else Undefined
  }

  /** The keys of `src` whose value is not undefined: the ones `mergeDeep` assigns. */
  function Assigned(src: map<string, Json>): set<string> {
    set k | k in src && !src[k].Undefined?
  }

  /** What `mergeDeep` stores under a key that held `d` when the source holds `v` there. */
  function MergedValue(d: Json, v: Json): (r: Json)
    requires !v.Undefined?
    decreases v, 1
  {
    if v.Arr? then (if d.Arr? then Arr(d.items + v.items) else Arr(v.items))
    else if v.Obj? then MergeDeep(d, v)
    else v
  }

  /** `mergeDeep(dest, src)`: the object `dest` (or `{}`) becomes. */
  function MergeDeep(dest: Json, src: Json): (r: Json)
    decreases src, 0
    ensures r.Obj?
  {
    var d := FieldsOf(dest);
    if !src.Obj? then Obj(d)
    else
      var s := src.fields;
      Obj(map k | k in d.Keys + Assigned(s) :: if k in Assigned(s) then MergedValue(Get(d, k), s[k]) else d[k])
  }

  /** The per-key cases of `mergeDeep`. */
  lemma MergeDeepCases(dest: Json, src: Json, k: string)
    ensures var r := MergeDeep(dest, src).fields;
            var d := FieldsOf(dest);
            // a source that is not a plain object leaves the (replaced) destination as it is
            (!src.Obj? ==> r == d) &&
            (src.Obj? ==>
               var s := src.fields;
               // keys not in the source, or undefined there, are untouched
               ((k !in s || s[k].Undefined?) ==> (k in r <==> k in d) && (k in d ==> r[k] == d[k])) &&
               // arrays are appended onto an array, or copied
               (k in s && s[k].Arr? ==> k in r && r[k] == Arr((if Get(d, k).Arr? then Get(d, k).items else []) + s[k].items)) &&
               // plain objects are merged, into `{}` when the old value is not a plain object
               (k in s && s[k].Obj? ==> k in r && r[k] == MergeDeep(Get(d, k), s[k])) &&
               // any other defined value overwrites
               (k in s && !s[k].Undefined? && !s[k].Arr? && !s[k].Obj? ==> k in r && r[k] == s[k]))
  {
    if src.Obj? && k in src.fields && src.fields[k].Arr? && !Get(FieldsOf(dest), k).Arr? {
      assert [] + src.fields[k].items == src.fields[k].items;
    }
  }

  /** No undefined value in any object field, at any depth through objects. */
  predicate NoUndefined(v: Json)
    decreases v
  {
    v.Obj? ==> forall k :: k in v.fields ==> !v.fields[k].Undefined? && NoUndefined(v.fields[k])
  }

  /** No array in any object field, at any depth through objects. */
  predicate NoArrays(v: Json)
    decreases v
  {
    !v.Arr? && (v.Obj? ==> forall k :: k in v.fields ==> NoArrays(v.fields[k]))
  }

  /** Merging an object without undefined values into `{}` copies it. */
  lemma {:induction false} MergeIntoEmptyCopies(src: Json)
    requires src.Obj? && NoUndefined(src)
    ensures MergeDeep(Obj(map[]), src) == src
    decreases src
  {
    var s := src.fields;
    var r := MergeDeep(Obj(map[]), src).fields;
    assert Assigned(s) == s.Keys;
    forall k | k in s
      ensures r[k] == s[k]
    {
      assert !s[k].Undefined? && NoUndefined(s[k]);
      assert r[k] == MergedValue(Undefined, s[k]);
      if s[k].Obj? {
        MergeIntoEmptyCopies(s[k]);
        assert MergeDeep(Undefined, s[k]) == MergeDeep(Obj(map[]), s[k]);
      }
    }
    assert r == s;
  }

  /** Without arrays in the source, merging it a second time changes nothing. */
  lemma {:induction false} MergeDeepIdempotent(dest: Json, src: Json)
    requires NoArrays(src)
    ensures MergeDeep(MergeDeep(dest, src), src) == MergeDeep(dest, src)
    decreases src
  {
    var once := MergeDeep(dest, src);
    if src.Obj? {
      var s := src.fields;
      var r1 := once.fields;
      var r2 := MergeDeep(once, src).fields;
      assert Assigned(s) <= r1.Keys;
      assert r2.Keys == r1.Keys;
      forall k | k in r1
        ensures r2[k] == r1[k]
      {
        if k in Assigned(s) {
          assert !s[k].Arr? && NoArrays(s[k]);
          assert r2[k] == MergedValue(r1[k], s[k]);
          var before := Get(FieldsOf(dest), k);
          assert k in FieldsOf(dest).Keys + Assigned(s);
          assert r1[k] == MergedValue(before, s[k]);
          if s[k].Obj? {
            MergeDeepIdempotent(before, s[k]);
          }
        } else {
          assert r2[k] == FieldsOf(once)[k];
        }
      }
      assert r2 == r1;
    }
  }

  /**
   * Arrays are why merging twice is not idempotent in general: an array in
   * the source is appended again onto the array the first merge stored, so a
   * non-empty one makes the second result differ from the first.
   */
  lemma MergeDeepAppendsArraysTwice(dest: Json, src: Json, k: string)
    requires src.Obj? && k in src.fields && src.fields[k].Arr?
    ensures var once := MergeDeep(dest, src).fields;
            var twice := MergeDeep(MergeDeep(dest, src), src).fields;
            k in once && once[k].Arr? && k in twice &&
            twice[k] == Arr(once[k].items + src.fields[k].items) &&
            (src.fields[k].items != [] ==> twice != once)
  {
    var once := MergeDeep(dest, src);
    MergeDeepCases(dest, src, k);
    MergeDeepCases(once, src, k);
    assert FieldsOf(once) == once.fields;
    if src.fields[k].items != [] {
      var twice := MergeDeep(once, src).fields;
      assert |twice[k].items| > |once.fields[k].items|;
    }
  }

  /** `mergeDeep(dest, src)`: replace a `dest` that is not a plain object by `{}`, then merge a plain-object `src` into it. */
  method MergeInto(dest: Json, src: Json) returns (r: Json)
    ensures r == MergeDeep(dest, src)
    decreases src, 1
  {
    var d := FieldsOf(dest);
    if !src.Obj? {
      return Obj(d);
    }
    d := MergeFields(d, src);
    r := Obj(d);
  }

  /** The `for` loop of `mergeDeep` over the keys of `src`. */
  method MergeFields(d0: map<string, Json>, src: Json) returns (d: map<string, Json>)
    requires src.Obj?
    ensures d == MergeDeep(Obj(d0), src).fields
    decreases src, 0
  {
    ghost var target := MergeDeep(Obj(d0), src).fields;
    d := d0;
    var s := src.fields;
    var todo := s.Keys;
    while todo != {}
      invariant todo <= s.Keys
      invariant MergedOn(d, d0, target, s, todo)
      decreases |todo|
    {
      var key :| key in todo;
      ghost var before := d;
      var value := s[key];
      if !value.Undefined? {
        var merged := MergeValue(Get(d, key), value);
        d := d[key := merged];
      }
      MergedOnStep(before, d0, src, todo, key, d);
      todo := todo - {key};
    }
    MergedOnDone(d, d0, src);
  }

  /** The loop invariant of `MergeFields`: the keys done agree with the result, the others with `dest`. */
  ghost predicate MergedOn(d: map<string, Json>, d0: map<string, Json>, target: map<string, Json>,
                           s: map<string, Json>, todo: set<string>) {
    (forall k :: k in s && k !in todo ==> (k in d <==> k in target) && (k in d ==> d[k] == target[k])) &&
    (forall k :: !(k in s && k !in todo) ==> (k in d <==> k in d0) && (k in d ==> d[k] == d0[k]))
  }

  /** One iteration of the loop keeps the invariant. */
  lemma MergedOnStep(d: map<string, Json>, d0: map<string, Json>, src: Json, todo: set<string>, key: string, next: map<string, Json>)
    requires src.Obj? && key in todo
    requires MergedOn(d, d0, MergeDeep(Obj(d0), src).fields, src.fields, todo)
    requires key in src.fields
    requires next == if src.fields[key].Undefined? then d else d[key := MergedValue(Get(d, key), src.fields[key])]
    ensures MergedOn(next, d0, MergeDeep(Obj(d0), src).fields, src.fields, todo - {key})
  {
    var t := MergeDeep(Obj(d0), src).fields;
    MergeDeepAt(d0, src, key);
    assert Get(d, key) == Get(d0, key);
    assert (key in next <==> key in t) && (key in t ==> next[key] == t[key]);
    MergedOnAdvance(d, d0, t, src.fields, todo, key, next);
  }

  /** Settling `key` to agree with the target moves it from the keys to do to the keys done. */
  lemma MergedOnAdvance(d: map<string, Json>, d0: map<string, Json>, t: map<string, Json>,
                        s: map<string, Json>, todo: set<string>, key: string, next: map<string, Json>)
    requires key in todo && key in s && MergedOn(d, d0, t, s, todo)
    requires (key in next <==> key in t) && (key in t ==> next[key] == t[key])
    requires next == d || (key in next && next == d[key := next[key]])
    ensures MergedOn(next, d0, t, s, todo - {key})
  {
  }

  /** With no key left to do, the invariant is the result. */
  lemma MergedOnDone(d: map<string, Json>, d0: map<string, Json>, src: Json)
    requires src.Obj? && MergedOn(d, d0, MergeDeep(Obj(d0), src).fields, src.fields, {})
    ensures d == MergeDeep(Obj(d0), src).fields
  {
    var target := MergeDeep(Obj(d0), src).fields;
    forall k
      ensures (k in d <==> k in target) && (k in d ==> d[k] == target[k])
    {
      if k !in src.fields {
        MergeDeepAt(d0, src, k);
      }
    }
    SameMaps(d, target);
  }

  /** Two maps that agree on every key are equal. */
  lemma SameMaps(a: map<string, Json>, b: map<string, Json>)
    requires forall k :: (k in a <==> k in b) && (k in a ==> a[k] == b[k])
    ensures a == b
  {
  }

  /** One key of the merged object. */
  lemma MergeDeepAt(d0: map<string, Json>, src: Json, k: string)
    requires src.Obj?
    ensures var t := MergeDeep(Obj(d0), src).fields;
            var s := src.fields;
            (k in s && !s[k].Undefined? ==> k in t && t[k] == MergedValue(Get(d0, k), s[k])) &&
            (!(k in s && !s[k].Undefined?) ==> (k in t <==> k in d0) && (k in d0 ==> t[k] == d0[k]))
  {
  }

  /** The body of the loop for one defined source value: append or copy an array, merge an object, or overwrite. */
  method MergeValue(current: Json, value: Json) returns (r: Json)
    requires !value.Undefined?
    ensures r == MergedValue(current, value)
    decreases value, 2
  {
    if value.Arr? {
      if current.Arr? {
        r := Arr(current.items + value.items);
      } else {
        r := Arr(value.items);
      }
    } else if value.Obj? {
      r := MergeInto(current, value);
    } else {
      r := value;
    }
  }
}
