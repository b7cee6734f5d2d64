/** The string and grouping helpers of libraries/util.js: padding built on
    the `new Array(n).join(c)` idiom, the integer part of `formatMoney`, and
    `arrayToObject`, which groups records' values by key. */
module Util {
  import opened Common

  /** `k` copies of `f`, one after another. */
  function Repeat(k: nat, f: string): (r: string)
    ensures |r| == k * |f|
  {
    if k == 0 then "" else Repeat(k - 1, f) + f
  }

  /** `Array.prototype.join`: the parts, with `sep` between consecutive ones. */
  function Join(parts: seq<string>, sep: string): string
  {
    if |parts| == 0 then ""
    else if |parts| == 1 then parts[0]
    else Join(parts[..|parts| - 1], sep) + sep + parts[|parts| - 1]
  }

  /** `new Array(n).join(sep)`: an array of `n` holes, each of which joins as
      the empty string. */
  function ArrayJoin(n: nat, sep: string): string
  {
    Join(seq(n, _ => ""), sep)
  }

  /** Joining `n` holes yields `n - 1` copies of the separator (none for an
      empty array). */
  lemma {:induction false} ArrayJoinCopies(n: nat, sep: string)
    ensures ArrayJoin(n, sep) == Repeat(if n == 0 then 0 else n - 1, sep)
  {
    if n > 1 {
      assert seq(n, _ => "")[..n - 1] == seq(n - 1, _ => "");
      ArrayJoinCopies(n - 1, sep);
    }
  }

  /** `Math.max(0, x)`. */
  function MaxZero(x: int): nat {
    if x > 0 then x else 0
  }

  /** The UTF-16 code units a character takes: two for a character outside
      the Basic Multilingual Plane, one for any other. */
  function Units(ch: char): nat {
    if ch as int >= 0x1_0000 then 2 else 1
  }

  /** `String.prototype.length`, which counts UTF-16 code units, not
      characters. */
  function Length(s: string): (n: nat)
    ensures |s| <= n <= 2 * |s|
  {
    if |s| == 0 then 0 else Length(s[..|s| - 1]) + Units(s[|s| - 1])
  }

  lemma {:induction false} LengthAppend(a: string, b: string)
    ensures Length(a + b) == Length(a) + Length(b)
    decreases |b|
  {
    if |b| == 0 {
      assert a + b == a;
    } else {
      assert (a + b)[..|a + b| - 1] == a + b[..|b| - 1];
      LengthAppend(a, b[..|b| - 1]);
    }
  }

  lemma MulStep(k: int, m: int)
    ensures (k - 1) * m + m == k * m
  {
  }

  lemma {:induction false} LengthRepeat(k: nat, f: string)
    ensures Length(Repeat(k, f)) == k * Length(f)
  {
    if k > 0 {
      LengthRepeat(k - 1, f);
      LengthAppend(Repeat(k - 1, f), f);
      assert Length(Repeat(k, f)) == (k - 1) * Length(f) + Length(f);
      assert (k - 1) * Length(f) + Length(f) == k * Length(f) by {
        MulStep(k, Length(f));
      }
    }
  }

  /** `c || ' '`: an absent or empty fill (both falsy) becomes a space. An
      absent argument is modelled as the empty string. */
  function Fill(c: string): (f: string)
    ensures |f| > 0
    ensures f == c || (c == "" && f == " ")
  {
    if c == "" then " " else c
  }

  /** util.js `padRight`: `str` followed by one copy of the fill for every
      code unit `str` is short of `max`. */
  function PadRight(str: string, max: int, c: string): (r: string)
    ensures r == str + Repeat(MaxZero(max - Length(str)), Fill(c))
  {
    ArrayJoinCopies(MaxZero(max - Length(str) + 1), Fill(c));
    str + ArrayJoin(MaxZero(max - Length(str) + 1), Fill(c))
  }

  /** util.js `padLeft`: the same fill as `padRight`, before `str`. */
  function PadLeft(str: string, max: int, c: string): (r: string)
    ensures r == Repeat(MaxZero(max - Length(str)), Fill(c)) + str
  {
    ArrayJoinCopies(MaxZero(max - Length(str) + 1), Fill(c));
    ArrayJoin(MaxZero(max - Length(str) + 1), Fill(c)) + str
  }

  /** util.js `padCenter`: `e = floor((max - str.length + 1) / 2)` holes on
      each side, hence `e - 1` copies of the fill on each side. (Dafny's `/`
      by a positive divisor rounds down, as `Math.floor` does.) */
  function PadCenter(str: string, max: int, c: string): (r: string)
    ensures var k := MaxZero((max - Length(str) + 1) / 2 - 1);
      r == Repeat(k, Fill(c)) + str + Repeat(k, Fill(c))
  {
    var e := (max - Length(str) + 1) / 2;
    ArrayJoinCopies(MaxZero(e), Fill(c));
    ArrayJoin(MaxZero(e), Fill(c)) + str + ArrayJoin(MaxZero(e), Fill(c))
  }

  /** Padding never truncates: `str` is kept whole, and when its length
      already reaches `max` it comes back unchanged. */
  lemma PadNeverTruncates(str: string, max: int, c: string)
    ensures PadRight(str, max, c)[..|str|] == str
    ensures PadLeft(str, max, c)[|PadLeft(str, max, c)| - |str|..] == str
    ensures Length(str) >= max ==> PadRight(str, max, c) == str && PadLeft(str, max, c) == str
    ensures Length(str) >= max - 1 ==> PadCenter(str, max, c) == str
  {
  }

  /** With a one-unit fill, `padRight` and `padLeft` reach a length of
      exactly `max` whenever `str` is not longer. */
  lemma PadWidth(str: string, max: int, c: string)
    requires Length(Fill(c)) == 1 && Length(str) <= max
    ensures Length(PadRight(str, max, c)) == max
    ensures Length(PadLeft(str, max, c)) == max
  {
    var n := MaxZero(max - Length(str));
    var pad := Repeat(n, Fill(c));
    LengthRepeat(n, Fill(c));
    assert Length(pad) == n;
    LengthAppend(str, pad);
    LengthAppend(pad, str);
  }

  /** With a one-unit fill, `padCenter` falls short of `max`: by one when
      `max - str.length` is odd, by two when it is even and positive,
      because each side gets one copy fewer than its holes. */
  lemma PadCenterWidth(str: string, max: int, c: string)
    requires Length(Fill(c)) == 1 && Length(str) < max
    ensures (max - Length(str)) % 2 == 1 ==> Length(PadCenter(str, max, c)) == max - 1
    ensures (max - Length(str)) % 2 == 0 ==> Length(PadCenter(str, max, c)) == max - 2
  {
    PadCenterLength(str, max, c);
    CenterHalves(max - Length(str));
  }

  /** With a one-unit fill, `padCenter` adds one unit per copy on each side. */
  lemma PadCenterLength(str: string, max: int, c: string)
    requires Length(Fill(c)) == 1
    ensures Length(PadCenter(str, max, c)) == 2 * MaxZero((max - Length(str) + 1) / 2 - 1) + Length(str)
  {
    SidesLength(MaxZero((max - Length(str) + 1) / 2 - 1), str, c);
  }

  lemma SidesLength(k: nat, str: string, c: string)
    requires Length(Fill(c)) == 1
    ensures Length(Repeat(k, Fill(c)) + str + Repeat(k, Fill(c))) == 2 * k + Length(str)
  {
    var side := Repeat(k, Fill(c));
    LengthRepeat(k, Fill(c));
    LengthAppend(side, str);
    LengthAppend(side + str, side);
  }

  /** Each side of `padCenter` gets `floor((d + 1) / 2) - 1` copies for a
      shortfall of `d`. */
  lemma CenterHalves(d: int)
    requires d >= 1
    ensures d % 2 == 1 ==> 2 * MaxZero((d + 1) / 2 - 1) == d - 1
    ensures d % 2 == 0 ==> 2 * MaxZero((d + 1) / 2 - 1) == d - 2
  {
  }

  /** Widths count code units: a character outside the Basic Multilingual
      Plane is two units long, so `padRight` of it to 4 adds two spaces. */
  lemma PadRightAstral()
    ensures PadRight("\U{1F600}", 4, "") == "\U{1F600}" + "  "
  {
    assert Length("\U{1F600}") == 2 by {
      assert "\U{1F600}"[..0] == "";
    }
    assert Repeat(2, " ") == "  " by {
      assert Repeat(1, " ") == " ";
    }
  }

  // ----- formatMoney: the integer part -----

  predicate IsDigit(c: char) {
    '0' <= c <= '9'
  }

  predicate IsDigits(s: string) {
    forall i :: 0 <= i < |s| ==> IsDigit(s[i])
  }

  /** `s.replace(/(\d{3})(?=\d)/g, '$1' + sep)` on a string of digits: each
      run of three digits that another digit follows gets `sep` after it. */
  function GroupByThrees(s: string, sep: string): (r: string)
    ensures |s| > 0 ==> |r| > 0 && r[0] == s[0]
  {
    if |s| <= 3 then s else s[..3] + sep + GroupByThrees(s[3..], sep)
  }

  /** The integer digits `i` of `formatMoney` with the thousands separator:
      `j = i.length > 3 ? i.length % 3 : 0` leading digits (if any) and a
      separator, then the rest grouped by threes. */
  function GroupThousands(i: string, sep: string): (r: string)
    ensures |i| > 0 ==> |r| > 0 && r[0] == i[0]
  {
    var j := if |i| > 3 then |i| % 3 else 0;
    (if j != 0 then i[..j] + sep else "") + GroupByThrees(i[j..], sep)
  }

  /** The sign prefix of `formatMoney`. */
  function NegativeSign(amount: real): string {
    if amount < 0.0 then "-" else ""
  }

  /** Everything `formatMoney` prints before the decimal part: the sign and
      the grouped integer digits `i` (which the source derives from `amount`
      through floating-point `toFixed`, left out here). */
  function FormatIntegerPart(amount: real, i: string, thousands: string): (r: string)
    requires |i| > 0 && IsDigits(i)
    ensures |r| > 0 && (r[0] == '-' <==> amount < 0.0)
  {
    NegativeSign(amount) + GroupThousands(i, thousands)
  }

  /** `String.prototype.split` with a one-character separator. */
  function Split(s: string, sep: char): (parts: seq<string>)
    ensures |parts| > 0
    ensures forall k :: 0 <= k < |parts| ==> sep !in parts[k]
  {
    if |s| == 0 then [""]
    else
      var rest := Split(s[1..], sep);
      if s[0] == sep then [""] + rest else [[s[0]] + rest[0]] + rest[1..]
  }

  lemma {:induction false} SplitNoSeparator(a: string, sep: char)
    requires sep !in a
    ensures Split(a, sep) == [a]
  {
    if |a| > 0 {
      SplitNoSeparator(a[1..], sep);
      assert [a[0]] + a[1..] == a;
    }
  }

  lemma {:induction false} SplitAt(a: string, sep: char, b: string)
    requires sep !in a
    ensures Split(a + [sep] + b, sep) == [a] + Split(b, sep)
  {
    if |a| == 0 {
      assert a + [sep] + b == [sep] + b;
      assert ([sep] + b)[1..] == b;
    } else {
      SplitAt(a[1..], sep, b);
      assert (a + [sep] + b)[1..] == a[1..] + [sep] + b;
      assert [a[0]] + a[1..] == a;
    }
  }

  /** All the parts, one after another. */
  function Concat(parts: seq<string>): string {
    if |parts| == 0 then "" else parts[0] + Concat(parts[1..])
  }

  lemma {:induction false} GroupByThreesGroups(t: string, sep: char)
    requires IsDigits(t) && !IsDigit(sep) && |t| >= 3 && |t| % 3 == 0
    ensures var g := Split(GroupByThrees(t, [sep]), sep);
      (forall k :: 0 <= k < |g| ==> |g[k]| == 3) && Concat(g) == t
  {
    if |t| == 3 {
      SplitNoSeparator(t, sep);
    } else {
      assert sep !in t[..3];
      GroupByThreesGroups(t[3..], sep);
      SplitAt(t[..3], sep, GroupByThrees(t[3..], [sep]));
      assert t[..3] + t[3..] == t;
    }
  }

  /** Taking the separators out of the grouped digits gives the digits back;
      the first group has one to three digits and every later group three. */
  lemma GroupThousandsGroups(i: string, sep: char)
    requires IsDigits(i) && !IsDigit(sep) && |i| > 0
    ensures var g := Split(GroupThousands(i, [sep]), sep);
      && 1 <= |g[0]| <= 3
      && (forall k :: 1 <= k < |g| ==> |g[k]| == 3)
      && Concat(g) == i
  {
    var j := if |i| > 3 then |i| % 3 else 0;
    if |i| <= 3 {
      assert i[0..] == i;
      assert GroupThousands(i, [sep]) == i;
      assert sep !in i;
      SplitNoSeparator(i, sep);
      assert Concat([i]) == i + Concat([]);
    } else if j != 0 {
      LeadingGroup(i, sep, j);
    } else {
      GroupByThreesGroups(i, sep);
      assert i[j..] == i;
      assert GroupThousands(i, [sep]) == GroupByThrees(i, [sep]);
    }
  }

  /** `GroupThousandsGroups` when the length is not a multiple of three: the
      `j` leading digits (one or two) form the first group. */
  lemma LeadingGroup(i: string, sep: char, j: int)
    requires IsDigits(i) && !IsDigit(sep) && |i| > 3 && j == |i| % 3 && j != 0
    ensures var g := Split(GroupThousands(i, [sep]), sep);
      && |g[0]| == j
      && (forall k :: 1 <= k < |g| ==> |g[k]| == 3)
      && Concat(g) == i
  {
    GroupByThreesGroups(i[j..], sep);
    var rest := GroupByThrees(i[j..], [sep]);
    assert GroupThousands(i, [sep]) == i[..j] + [sep] + rest;
    assert sep !in i[..j];
    SplitAt(i[..j], sep, rest);
    var g' := Split(rest, sep);
    assert ([i[..j]] + g')[1..] == g';
    assert i[..j] + i[j..] == i;
  }

  // ----- arrayToObject -----

  /** The keys of one record, as `Object.entries` lists them. */
  function KeysIn<V>(entries: seq<(string, V)>): set<string> {
    if |entries| == 0 then {} else KeysIn(entries[..|entries| - 1]) + {entries[|entries| - 1].0}
  }

  /** The values one record holds under `key`, in entry order. */
  function ValuesIn<V>(entries: seq<(string, V)>, key: string): seq<V> {
    if |entries| == 0 then []
    else
      var last := entries[|entries| - 1];
      ValuesIn(entries[..|entries| - 1], key) + (if last.0 == key then [last.1] else [])
  }

  /** Every key that some record of `items` has. */
  function KeysOf<V>(items: seq<seq<(string, V)>>): set<string> {
    if |items| == 0 then {} else KeysOf(items[..|items| - 1]) + KeysIn(items[|items| - 1])
  }

  /** The values the records of `items` hold under `key`, record by record. */
  function ValuesOf<V>(items: seq<seq<(string, V)>>, key: string): seq<V> {
    if |items| == 0 then [] else ValuesOf(items[..|items| - 1], key) + ValuesIn(items[|items| - 1], key)
  }

  lemma {:induction false} ValuesInAbsent<V>(entries: seq<(string, V)>, key: string)
    requires key !in KeysIn(entries)
    ensures ValuesIn(entries, key) == []
  {
    if |entries| > 0 {
      ValuesInAbsent(entries[..|entries| - 1], key);
    }
  }

  lemma {:induction false} ValuesOfAbsent<V>(items: seq<seq<(string, V)>>, key: string)
    requires key !in KeysOf(items)
    ensures ValuesOf(items, key) == []
  {
    if |items| > 0 {
      ValuesOfAbsent(items[..|items| - 1], key);
      ValuesInAbsent(items[|items| - 1], key);
    }
  }

  /** One more entry adds its key, and its value under that key only. */
  lemma EntryKeysStep<V>(item: seq<(string, V)>, j: nat)
    requires j < |item|
    ensures KeysIn(item[..j + 1]) == KeysIn(item[..j]) + {item[j].0}
  {
    assert item[..j + 1][..j] == item[..j];
  }

  lemma EntryValuesStep<V>(item: seq<(string, V)>, j: nat, key: string)
    requires j < |item|
    ensures ValuesIn(item[..j + 1], key) == ValuesIn(item[..j], key) + (if item[j].0 == key then [item[j].1] else [])
  {
    assert item[..j + 1][..j] == item[..j];
  }

  /** One more record adds its keys, and its values under each of them. */
  lemma ItemSnoc<V>(items: seq<seq<(string, V)>>, item: seq<(string, V)>)
    ensures KeysOf(items + [item]) == KeysOf(items) + KeysIn(item)
    ensures forall key :: ValuesOf(items + [item], key) == ValuesOf(items, key) + ValuesIn(item, key)
  {
    assert (items + [item])[..|items|] == items;
  }

  /** util.js `arrayToObject` for records with scalar values: the result maps
      each key some record has, and only those, to the values the records
      hold under it, in array order. */
  method ArrayToObject<V>(items: seq<seq<(string, V)>>) returns (output: map<string, seq<V>>)
    ensures output.Keys == KeysOf(items)
    ensures forall key :: key in output ==> output[key] == ValuesOf(items, key)
  {
    output := map[];
    var i := 0;
    while i < |items|
      invariant 0 <= i <= |items|
      invariant output.Keys == KeysOf(items[..i])
      invariant forall key :: key in output ==> output[key] == ValuesOf(items[..i], key)
    {
      var item := items[i];
      assert items[..i + 1] == items[..i] + [item];
      ItemSnoc(items[..i], item);
      forall key | key !in KeysOf(items[..i]) ensures ValuesOf(items[..i], key) == [] {
        ValuesOfAbsent(items[..i], key);
      }
      output := AddEntries(output, item);
      i := i + 1;
    }
    assert items[..i] == items;
  }

  /** The inner loop of `arrayToObject`: each entry of one record appends
      its value under its key, opening the key when it is new. */
  method AddEntries<V>(output: map<string, seq<V>>, item: seq<(string, V)>) returns (r: map<string, seq<V>>)
    ensures r.Keys == output.Keys + KeysIn(item)
    ensures forall key :: key in r ==>
      r[key] == (if key in output then output[key] else []) + ValuesIn(item, key)
  {
    r := output;
    var j := 0;
    while j < |item|
      invariant 0 <= j <= |item|
      invariant Added(output, item[..j], r)
    {
      var (key, value) := item[j];
      ghost var before := r;
      if key in r {
        r := r[key := r[key] + [value]];
      } else {
        r := r[key := [value]];
      }
      AddedStep(output, item, j, before, r);
      j := j + 1;
    }
    assert item[..j] == item;
  }

  /** `r` is `output` with the values of `entries` appended under their keys. */
  ghost predicate Added<V>(output: map<string, seq<V>>, entries: seq<(string, V)>, r: map<string, seq<V>>) {
    && r.Keys == output.Keys + KeysIn(entries)
    && forall key :: key in r ==>
         r[key] == (if key in output then output[key] else []) + ValuesIn(entries, key)
  }

  lemma AddedStep<V>(output: map<string, seq<V>>, item: seq<(string, V)>, j: nat,
                     before: map<string, seq<V>>, r: map<string, seq<V>>)
    requires j < |item| && Added(output, item[..j], before)
    requires var (key, value) := item[j];
      r == if key in before then before[key := before[key] + [value]] else before[key := [value]]
    ensures Added(output, item[..j + 1], r)
  {
    EntryKeysStep(item, j);
    assert r.Keys == before.Keys + {item[j].0};
    forall k | k in r
      ensures r[k] == (if k in output then output[k] else []) + ValuesIn(item[..j + 1], k)
    {
      AddedValueStep(output, item, j, before, r, k);
    }
  }

  /** `AddedStep` for the values under one key. */
  lemma AddedValueStep<V>(output: map<string, seq<V>>, item: seq<(string, V)>, j: nat,
                          before: map<string, seq<V>>, r: map<string, seq<V>>, k: string)
    requires j < |item| && before.Keys == output.Keys + KeysIn(item[..j])
    requires k in before ==> before[k] == (if k in output then output[k] else []) + ValuesIn(item[..j], k)
    requires var (key, value) := item[j];
      r == if key in before then before[key := before[key] + [value]] else before[key := [value]]
    requires k in r
    ensures r[k] == (if k in output then output[k] else []) + ValuesIn(item[..j + 1], k)
  {
    var (key, value) := item[j];
    EntryValuesStep(item, j, k);
    var prior := if k in output then output[k] else [];
    if k != key {
      assert r[k] == before[k];
    } else if k in before {
      assert r[k] == (prior + ValuesIn(item[..j], k)) + [value];
    } else {
      ValuesInAbsent(item[..j], k);
      assert prior == [];
    }
  }

  // The values collected under all keys together number as many as the
  // (record, key) pairs of the input. The keys are counted through any
  // enumeration of them without repeats, such as `Object.keys(output)`.

  /** How many (record, key) pairs `items` has. */
  function EntryCount<V>(items: seq<seq<(string, V)>>): nat {
    if |items| == 0 then 0 else EntryCount(items[..|items| - 1]) + |items[|items| - 1]|
  }

  /** How many values `items` holds under the keys of `keys`, together. */
  function ValueCount<V>(items: seq<seq<(string, V)>>, keys: seq<string>): nat {
    if |keys| == 0 then 0 else ValueCount(items, keys[..|keys| - 1]) + |ValuesOf(items, keys[|keys| - 1])|
  }

  /** How many values one record holds under the keys of `keys`, together. */
  function ValueCountIn<V>(entries: seq<(string, V)>, keys: seq<string>): nat {
    if |keys| == 0 then 0 else ValueCountIn(entries, keys[..|keys| - 1]) + |ValuesIn(entries, keys[|keys| - 1])|
  }

  function Occurrences(keys: seq<string>, k: string): nat {
    if |keys| == 0 then 0 else Occurrences(keys[..|keys| - 1], k) + (if keys[|keys| - 1] == k then 1 else 0)
  }

  lemma {:induction false} OccurrencesOnce(keys: seq<string>, k: string)
    requires Distinct(keys)
    ensures Occurrences(keys, k) == if k in keys then 1 else 0
  {
    if |keys| > 0 {
      var init := keys[..|keys| - 1];
      OccurrencesOnce(init, k);
      assert keys == init + [keys[|keys| - 1]];
    }
  }

  lemma {:induction false} ValueCountInStep<V>(entries: seq<(string, V)>, x: (string, V), keys: seq<string>)
    ensures ValueCountIn(entries + [x], keys) == ValueCountIn(entries, keys) + Occurrences(keys, x.0)
  {
    if |keys| > 0 {
      ValueCountInStep(entries, x, keys[..|keys| - 1]);
      assert (entries + [x])[..|entries|] == entries;
    }
  }

  lemma {:induction false} ValueCountInAll<V>(entries: seq<(string, V)>, keys: seq<string>)
    requires Distinct(keys)
    requires forall k :: k in KeysIn(entries) ==> k in keys
    ensures ValueCountIn(entries, keys) == |entries|
  {
    if |entries| == 0 {
      ValueCountInEmpty(entries, keys);
    } else {
      var init, x := entries[..|entries| - 1], entries[|entries| - 1];
      ValueCountInAll(init, keys);
      ValueCountInStep(init, x, keys);
      OccurrencesOnce(keys, x.0);
      assert init + [x] == entries;
    }
  }

  lemma {:induction false} ValueCountInEmpty<V>(entries: seq<(string, V)>, keys: seq<string>)
    requires |entries| == 0
    ensures ValueCountIn(entries, keys) == 0
  {
    if |keys| > 0 {
      ValueCountInEmpty(entries, keys[..|keys| - 1]);
    }
  }

  lemma {:induction false} ValueCountStep<V>(items: seq<seq<(string, V)>>, keys: seq<string>)
    requires |items| > 0
    ensures ValueCount(items, keys) == ValueCount(items[..|items| - 1], keys) + ValueCountIn(items[|items| - 1], keys)
  {
    if |keys| > 0 {
      ValueCountStep(items, keys[..|keys| - 1]);
    }
  }

  lemma {:induction false} ValueCountEmpty<V>(items: seq<seq<(string, V)>>, keys: seq<string>)
    requires |items| == 0
    ensures ValueCount(items, keys) == 0
  {
    if |keys| > 0 {
      ValueCountEmpty(items, keys[..|keys| - 1]);
    }
  }

  /** Summed over an enumeration of its keys, `arrayToObject`'s lists hold
      exactly as many values as the input has (record, key) pairs. */
  lemma {:induction false} ArrayToObjectCount<V>(items: seq<seq<(string, V)>>, keys: seq<string>)
    requires Distinct(keys)
    requires forall k :: k in KeysOf(items) ==> k in keys
    ensures ValueCount(items, keys) == EntryCount(items)
  {
    if |items| == 0 {
      ValueCountEmpty(items, keys);
    } else {
      ValueCountStep(items, keys);
      ArrayToObjectCount(items[..|items| - 1], keys);
      ValueCountInAll(items[|items| - 1], keys);
    }
  }
}
