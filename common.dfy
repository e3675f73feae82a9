/// Shared wrappers: optional values, results and small arithmetic helpers.
module Common {
  datatype Option<T> = None | Some(value: T)

  datatype Result<T, E> = Ok(value: T) | Err(error: E)

  /** A point in time supplied by the caller's clock, counted from the epoch
      (seconds or milliseconds, as each record's source field is kept). */
  type Instant = nat

  /** The unsigned 64-bit range the source's `u64` counters live in. */
  const U64_MAX: nat := 0xFFFF_FFFF_FFFF_FFFF

  function Min(a: nat, b: nat): nat
  {
    if a <= b then a else b
  }

  /** Rust's `saturating_sub` on unsigned integers. */
  function SaturatingSub(a: nat, b: nat): nat
  {
    if a >= b then a - b else 0
  }

  /** An association list whose keys are pairwise distinct: a hash map given
      in its iteration order. */
  predicate DistinctKeys<K(==), V>(entries: seq<(K, V)>)
  {
    forall i, j :: 0 <= i < j < |entries| ==> entries[i].0 != entries[j].0
  }

  /** Ids listed at most once each. */
  predicate DistinctIds(ids: seq<string>)
  {
    forall i, j :: 0 <= i < j < |ids| ==> ids[i] != ids[j]
  }

  /** The ids a sequence lists. */
  function IdSet(ids: seq<string>): set<string>
  {
    set i | 0 <= i < |ids| :: ids[i]
  }

  /** A listing without repeats adds a new id at every step. */
  lemma IdSetStep(ids: seq<string>, i: nat)
    requires DistinctIds(ids) && i < |ids|
    ensures ids[i] !in IdSet(ids[..i])
    ensures IdSet(ids[..i] + [ids[i]]) == IdSet(ids[..i]) + {ids[i]}
  {
    var ys := ids[..i] + [ids[i]];
    assert forall j :: 0 <= j < i ==> ys[j] == ids[..i][j];
    assert ys[i] == ids[i];
  }

  /** A listing without repeats lists as many ids as it has entries. */
  lemma {:induction false} DistinctIdsSize(ids: seq<string>)
    requires DistinctIds(ids)
    ensures |IdSet(ids)| == |ids|
  {
    if ids != [] {
      var n := |ids| - 1;
      assert DistinctIds(ids[..n]);
      DistinctIdsSize(ids[..n]);
      IdSetStep(ids, n);
      assert ids[..n] + [ids[n]] == ids;
    }
  }

  /** A listing that lists exactly the members of `s` has `s` as its id set. */
  lemma IdsOfListing(ids: seq<string>, s: set<string>)
    requires forall i :: 0 <= i < |ids| ==> ids[i] in s
    requires forall id :: id in s ==> id in ids
    ensures IdSet(ids) == s
  {
  }

  /** The members of a finite set of ids, each once, in an order the model
      leaves open (a map's iteration order). */
  method Enumerate(s: set<string>) returns (ids: seq<string>)
    ensures DistinctIds(ids) && |ids| == |s| && IdSet(ids) == s
    ensures forall i :: 0 <= i < |ids| ==> ids[i] in s
    ensures forall id :: id in s ==> id in ids
  {
    var remaining := s;
    ids := [];
    while remaining != {}
      invariant remaining <= s
      invariant DistinctIds(ids)
      invariant forall i :: 0 <= i < |ids| ==> ids[i] in s && ids[i] !in remaining
      invariant forall id :: id in s ==> id in remaining || id in ids
      invariant |ids| + |remaining| == |s|
      decreases |remaining|
    {
      var id :| id in remaining;
      ids := ids + [id];
      remaining := remaining - {id};
    }
    IdsOfListing(ids, s);
  }

  /** The first value stored under `key`, as a hash map lookup gives it when
      keys are distinct (a map kept as an association list). */
  function LookupKey<V>(entries: seq<(string, V)>, key: string): (r: Option<V>)
    ensures r.Some? <==> exists i :: 0 <= i < |entries| && entries[i].0 == key
    ensures r.Some? ==> exists i :: 0 <= i < |entries| && entries[i] == (key, r.value)
  {
    if entries == [] then None
    else if entries[0].0 == key then Some(entries[0].1)
    else
      var r := LookupKey(entries[1..], key);
      assert forall i :: 0 <= i < |entries[1..]| ==> entries[1..][i] == entries[i + 1];
      r
  }

  /** `HashMap::insert` on an association list: `key` now gives `value` and
      every other key what it gave before. */
  function Put<V>(entries: seq<(string, V)>, key: string, value: V): (r: seq<(string, V)>)
    ensures LookupKey(r, key) == Some(value)
    ensures forall k :: k != key ==> LookupKey(r, k) == LookupKey(entries, k)
  {
    if entries == [] then [(key, value)]
    else if entries[0].0 == key then [(key, value)] + entries[1..]
    else [entries[0]] + Put(entries[1..], key, value)
  }

  /** Every key of an insert's result was the inserted key or already present. */
  lemma {:induction false} PutKeys<V>(entries: seq<(string, V)>, key: string, value: V)
    ensures forall i :: 0 <= i < |Put(entries, key, value)| ==>
      Put(entries, key, value)[i].0 == key || LookupKey(entries, Put(entries, key, value)[i].0).Some?
  {
    if entries != [] && entries[0].0 != key {
      var rest := entries[1..];
      PutKeys(rest, key, value);
      var r := Put(entries, key, value);
      forall i | 0 < i < |r| && r[i].0 != key
        ensures LookupKey(entries, r[i].0).Some?
      {
        assert r[i] == Put(rest, key, value)[i - 1];
        var j :| 0 <= j < |rest| && rest[j].0 == r[i].0;
        assert entries[j + 1].0 == r[i].0;
      }
    }
  }

  /** An insert keeps the keys of a hash map's entries distinct. */
  lemma {:induction false} PutKeepsDistinct<V>(entries: seq<(string, V)>, key: string, value: V)
    requires DistinctKeys(entries)
    ensures DistinctKeys(Put(entries, key, value))
  {
    if entries != [] && entries[0].0 != key {
      var rest := entries[1..];
      TailKeysDistinct(entries);
      PutKeepsDistinct(rest, key, value);
      PutKeys(rest, key, value);
      var tail := Put(rest, key, value);
      forall b | 0 <= b < |tail| ensures entries[0].0 != tail[b].0 {
        if tail[b].0 != key {
          var j :| 0 <= j < |rest| && rest[j].0 == tail[b].0;
          assert entries[j + 1].0 == tail[b].0;
        }
      }
      ConsKeysDistinct(entries[0], tail);
    }
  }

  lemma TailKeysDistinct<V>(entries: seq<(string, V)>)
    requires entries != [] && DistinctKeys(entries)
    ensures DistinctKeys(entries[1..])
  {
    forall a, b | 0 <= a < b < |entries| - 1 ensures entries[1..][a].0 != entries[1..][b].0 {
      assert entries[1..][a] == entries[a + 1] && entries[1..][b] == entries[b + 1];
    }
  }

  lemma ConsKeysDistinct<V>(e: (string, V), tail: seq<(string, V)>)
    requires DistinctKeys(tail) && forall b :: 0 <= b < |tail| ==> e.0 != tail[b].0
    ensures DistinctKeys([e] + tail)
  {
    forall a, b | 0 <= a < b < |tail| + 1 ensures ([e] + tail)[a].0 != ([e] + tail)[b].0 {
      assert ([e] + tail)[b] == tail[b - 1];
      if a > 0 {
        assert ([e] + tail)[a] == tail[a - 1];
      }
    }
  }

  /** The last value `f` finds among `xs`: the value of the last element
      for which `f` gives one. */
  function LastSome<T, R>(xs: seq<T>, f: T -> Option<R>): Option<R>
  {
    if xs == [] then None
    else
      var last := f(xs[|xs| - 1]);
      if last.Some? then last else LastSome(xs[..|xs| - 1], f)
  }

  /** The value found is that of an element after which `f` finds nothing;
      nothing is found only when `f` finds nothing in any element. */
  lemma {:induction false} LastSomeIsLast<T, R>(xs: seq<T>, f: T -> Option<R>)
    ensures LastSome(xs, f).Some? ==>
      exists i :: 0 <= i < |xs| && f(xs[i]) == LastSome(xs, f)
        && forall j :: i < j < |xs| ==> f(xs[j]).None?
    ensures LastSome(xs, f).None? ==> forall i :: 0 <= i < |xs| ==> f(xs[i]).None?
    decreases |xs|
  {
    if xs != [] {
      var init := xs[..|xs| - 1];
      LastSomeIsLast(init, f);
      assert forall i :: 0 <= i < |init| ==> init[i] == xs[i];
    }
  }

  /** Over two runs, the value found is the second run's, if it has one. */
  lemma {:induction false} LastSomeAppend<T, R>(a: seq<T>, b: seq<T>, f: T -> Option<R>)
    ensures LastSome(a + b, f) == if LastSome(b, f).Some? then LastSome(b, f) else LastSome(a, f)
    decreases |b|
  {
    if b == [] {
      assert a + b == a;
    } else {
      assert (a + b)[..|a + b| - 1] == a + b[..|b| - 1];
      LastSomeAppend(a, b[..|b| - 1], f);
    }
  }
}

/// Text operations of Rust's `str` that the modelled code relies on.
/// Strings are sequences of Unicode scalar values; byte offsets become
/// character offsets.
module Strings {
  import opened Common

  /** `p` occurs in `s` starting at index `i`. */
  predicate OccursAt(s: string, p: string, i: nat)
  {
    i + |p| <= |s| && s[i..i + |p|] == p
  }

  /** The first index at or after `i` where `p` occurs in `s`. */
  function FindFrom(s: string, p: string, i: nat): (r: Option<nat>)
    requires i <= |s|
    ensures r.Some? ==> i <= r.value && OccursAt(s, p, r.value)
    ensures r.Some? ==> forall j :: i <= j < r.value ==> !OccursAt(s, p, j)
    ensures r.None? ==> forall j :: i <= j ==> !OccursAt(s, p, j)
    decreases |s| - i
  {
    if OccursAt(s, p, i) then Some(i)
    else if i == |s| then None
    else FindFrom(s, p, i + 1)
  }

  /** `str::find`: the first occurrence of `p` in `s`. */
  function Find(s: string, p: string): Option<nat>
  {
    FindFrom(s, p, 0)
  }

  /** An occurrence with none before it is the one `find` reports. */
  lemma FindFirst(s: string, p: string, k: nat)
    requires OccursAt(s, p, k)
    requires forall j :: 0 <= j < k ==> !OccursAt(s, p, j)
    ensures Find(s, p) == Some(k)
  {
  }

  /** `str::contains`. */
  predicate Contains(s: string, p: string)
  {
    Find(s, p).Some?
  }

  /** `str::starts_with`. */
  predicate StartsWith(s: string, p: string)
  {
    |p| <= |s| && s[..|p|] == p
  }

  /** When nothing before `k` starts an occurrence of `p`, the prefix `s[..k]`
      holds no occurrence of `p`. */
  lemma NoMatchInPrefix(s: string, p: string, k: nat)
    requires |p| > 0 && k <= |s|
    requires forall j :: 0 <= j < k ==> !OccursAt(s, p, j)
    ensures !Contains(s[..k], p)
  {
    if Contains(s[..k], p) {
      var v := Find(s[..k], p).value;
      assert s[..k][v..v + |p|] == s[v..v + |p|];
      assert OccursAt(s, p, v);
    }
  }

  /** `str::split` with a non-empty separator: the pieces between the
      non-overlapping occurrences of `sep`, scanned left to right. */
  function Split(s: string, sep: string): (parts: seq<string>)
    requires |sep| > 0
    ensures |parts| >= 1
    decreases |s|
  {
    match Find(s, sep)
    case None => [s]
    case Some(k) => [s[..k]] + Split(s[k + |sep|..], sep)
  }

  /** No piece of a split contains the separator. */
  lemma {:induction false} SplitPiecesLackSeparator(s: string, sep: string)
    requires |sep| > 0
    ensures forall k :: 0 <= k < |Split(s, sep)| ==> !Contains(Split(s, sep)[k], sep)
    decreases |s|
  {
    match Find(s, sep)
    case None =>
    case Some(k) =>
      NoMatchInPrefix(s, sep, k);
      SplitPiecesLackSeparator(s[k + |sep|..], sep);
      SplitStep(s, sep, k);
  }

  /** `slice::join`: the parts with `sep` between consecutive ones. */
  function Join(parts: seq<string>, sep: string): string
  {
    if |parts| == 0 then ""
    else if |parts| == 1 then parts[0]
    else parts[0] + sep + Join(parts[1..], sep)
  }

  /** `str::replace` with a non-empty pattern: every non-overlapping occurrence
      of `from`, found left to right, becomes `to`. */
  function Replace(s: string, from: string, to: string): string
    requires |from| > 0
    decreases |s|
  {
    match Find(s, from)
    case None => s
    case Some(k) => s[..k] + to + Replace(s[k + |from|..], from, to)
  }

  /** Replacing is splitting at the pattern and joining with the replacement. */
  lemma {:induction false} ReplaceIsJoinOfSplit(s: string, from: string, to: string)
    requires |from| > 0
    ensures Replace(s, from, to) == Join(Split(s, from), to)
    decreases |s|
  {
    match Find(s, from)
    case None =>
    case Some(k) =>
      var rest := Split(s[k + |from|..], from);
      ReplaceIsJoinOfSplit(s[k + |from|..], from, to);
      assert Split(s, from) == [s[..k]] + rest;
      assert ([s[..k]] + rest)[1..] == rest;
  }

  /** Joining the pieces of a split with the separator gives the text back. */
  lemma {:induction false} SplitJoinRoundTrip(s: string, sep: string)
    requires |sep| > 0
    ensures Join(Split(s, sep), sep) == s
    decreases |s|
  {
    match Find(s, sep)
    case None =>
    case Some(k) =>
      var rest := Split(s[k + |sep|..], sep);
      SplitJoinRoundTrip(s[k + |sep|..], sep);
      assert Split(s, sep) == [s[..k]] + rest;
      assert ([s[..k]] + rest)[1..] == rest;
      assert s[k..k + |sep|] == sep;
      assert s == s[..k] + s[k..k + |sep|] + s[k + |sep|..];
  }

  /** Replacing a pattern that does not occur changes nothing. */
  lemma ReplaceAbsent(s: string, p: string, t: string)
    requires |p| > 0 && !Contains(s, p)
    ensures Replace(s, p, t) == s
  {
  }

  /** Text holding a pattern holds every prefix of it. */
  lemma ContainsPrefix(s: string, a: string, b: string)
    ensures Contains(s, a + b) ==> Contains(s, a)
  {
    if Contains(s, a + b) {
      var k := Find(s, a + b).value;
      assert s[k..k + |a|] == (a + b)[..|a|];
      assert OccursAt(s, a, k);
    }
  }

  /** Replacing a pattern by itself changes nothing. */
  lemma ReplaceWithItself(s: string, p: string)
    requires |p| > 0
    ensures Replace(s, p, p) == s
  {
    ReplaceIsJoinOfSplit(s, p, p);
    SplitJoinRoundTrip(s, p);
  }

  /** An occurrence found in `s` is still the first one once text is
      appended: an earlier occurrence would lie wholly inside `s`. */
  lemma {:induction false} FindFromAppend(s: string, t: string, p: string, i: nat)
    requires i <= |s| && FindFrom(s, p, i).Some?
    ensures FindFrom(s + t, p, i) == FindFrom(s, p, i)
    decreases |s| - i
  {
    var k := FindFrom(s, p, i).value;
    if OccursAt(s, p, i) {
      assert (s + t)[i..i + |p|] == s[i..i + |p|];
    } else {
      assert i < k && k + |p| <= |s|;
      assert (s + t)[i..i + |p|] == s[i..i + |p|];
      FindFromAppend(s, t, p, i + 1);
    }
  }

  /** One step of a split: the text before the first separator, then the
      split of what follows it. */
  lemma {:induction false} SplitStep(s: string, sep: string, k: nat)
    requires |sep| > 0 && Find(s, sep) == Some(k)
    ensures k + |sep| <= |s|
    ensures Split(s, sep) == [s[..k]] + Split(s[k + |sep|..], sep)
  {
  }

  /** Splitting text with more appended splits the old text the same way up
      to its last piece, which is then split together with the new text. */
  lemma {:induction false} SplitAppend(s: string, t: string, sep: string)
    requires |sep| > 0
    ensures var parts := Split(s, sep);
      Split(s + t, sep) == parts[..|parts| - 1] + Split(parts[|parts| - 1] + t, sep)
    decreases |s|, 1
  {
    var f := Find(s, sep);
    if f.None? {
      assert Split(s, sep) == [s];
    } else {
      SplitAppendFound(s, t, sep, f.value);
    }
  }

  /** `SplitAppend` when the old text holds a separator at `k`. */
  lemma {:induction false} SplitAppendFound(s: string, t: string, sep: string, k: nat)
    requires |sep| > 0 && Find(s, sep) == Some(k)
    ensures var parts := Split(s, sep);
      Split(s + t, sep) == parts[..|parts| - 1] + Split(parts[|parts| - 1] + t, sep)
    decreases |s|, 0
  {
    SplitStep(s, sep, k);
    SplitFoundAppend(s, t, sep, k);
    var rest := s[k + |sep|..];
    SplitAppend(rest, t, sep);
    var tail := Split(rest, sep);
    DropLastOfCons(s[..k], tail, Split(tail[|tail| - 1] + t, sep));
  }

  /** Dropping the last element of a non-empty list keeps its head. */
  lemma DropLastOfCons<T>(a: T, tail: seq<T>, x: seq<T>)
    requires |tail| >= 1
    ensures ([a] + tail)[..|tail|] + x == [a] + (tail[..|tail| - 1] + x)
    ensures ([a] + tail)[|tail|] == tail[|tail| - 1]
  {
    assert ([a] + tail)[..|tail|] == [a] + tail[..|tail| - 1];
  }

  /** A separator found in `s` is where `s + t` is split first. */
  lemma SplitFoundAppend(s: string, t: string, sep: string, k: nat)
    requires |sep| > 0 && Find(s, sep) == Some(k)
    ensures k + |sep| <= |s|
    ensures Split(s + t, sep) == [s[..k]] + Split(s[k + |sep|..] + t, sep)
  {
    FindFromAppend(s, t, sep, 0);
    SplitStep(s + t, sep, k);
    assert (s + t)[..k] == s[..k];
    assert (s + t)[k + |sep|..] == s[k + |sep|..] + t;
  }

  /** Joining one more part adds the separator and that part. */
  lemma {:induction false} JoinAppend(parts: seq<string>, p: string, sep: string)
    requires |parts| > 0
    ensures Join(parts + [p], sep) == Join(parts, sep) + sep + p
    decreases |parts|
  {
    if |parts| == 1 {
      assert (parts + [p])[1..] == [p];
    } else {
      assert (parts + [p])[1..] == parts[1..] + [p];
      JoinAppend(parts[1..], p, sep);
    }
  }

  /** `char::is_whitespace`: the Unicode White_Space property. */
  predicate IsWhitespace(c: char)
  {
    ('\t' <= c <= '\r') || c == ' ' || c == '\U{85}' || c == '\U{A0}' || c == '\U{1680}'
    || ('\U{2000}' <= c <= '\U{200A}') || c == '\U{2028}' || c == '\U{2029}'
    || c == '\U{202F}' || c == '\U{205F}' || c == '\U{3000}'
  }

  /** `str::trim_start`. */
  function TrimStart(s: string): (r: string)
    ensures |r| <= |s| && r == s[|s| - |r|..]
    ensures forall i :: 0 <= i < |s| - |r| ==> IsWhitespace(s[i])
    ensures |r| > 0 ==> !IsWhitespace(r[0])
  {
    if |s| > 0 && IsWhitespace(s[0]) then TrimStart(s[1..]) else s
  }

  /** `str::trim_end`. */
  function TrimEnd(s: string): (r: string)
    ensures |r| <= |s| && r == s[..|r|]
    ensures forall i :: |r| <= i < |s| ==> IsWhitespace(s[i])
    ensures |r| > 0 ==> !IsWhitespace(r[|r| - 1])
  {
    if |s| > 0 && IsWhitespace(s[|s| - 1]) then TrimEnd(s[..|s| - 1]) else s
  }

  /** `str::trim`: the text without leading and trailing white space. */
  function Trim(s: string): string
  {
    TrimEnd(TrimStart(s))
  }

  /** `str::lines`: the text split at '\n', a "\r\n" ending counting as one
      line ending and a final line ending being optional. */
  function Lines(s: string): seq<string>
    decreases |s|
  {
    if s == [] then []
    else
      match Find(s, "\n")
      case None => [s]
      case Some(k) => [StripCarriageReturn(s[..k])] + Lines(s[k + 1..])
  }

  function StripCarriageReturn(line: string): string
  {
    if |line| > 0 && line[|line| - 1] == '\r' then line[..|line| - 1] else line
  }

  function DigitChar(d: nat): char
    requires d < 10
  {
    "0123456789"[d]
  }

  /** The decimal rendering of a natural number. */
  function NatToString(n: nat): string
    decreases n
  {
    if n < 10 then [DigitChar(n)] else NatToString(n / 10) + [DigitChar(n % 10)]
  }

  /** The decimal rendering of an integer, with a leading '-' when negative. */
  function IntToString(n: int): string
  {
    if n < 0 then "-" + NatToString(-n) else NatToString(n)
  }
}

/// `serde_json::Value` with integral numbers only, and its compact text form.
module Json {
  import opened Common
  import opened Strings

  datatype JsonValue =
    | JNull
    | JBool(b: bool)
    | JNumber(n: int)
    | JString(s: string)
    | JArray(items: seq<JsonValue>)
    | JObject(fields: seq<(string, JsonValue)>)
  {
    /** `Value::as_str`. */
    function AsStr(): Option<string>
    {
      if JString? then Some(s) else None
    }
  }

  /** `Value::get` with a string key: the field of an object, nothing for any
      other value. */
  function Get(v: JsonValue, key: string): Option<JsonValue>
  {
    if v.JObject? then LookupKey(v.fields, key) else None
  }

  /** The string field `key` of an object (`get(key).and_then(as_str)`). */
  function GetStr(v: JsonValue, key: string): Option<string>
  {
    match Get(v, key)
    case Some(JString(s)) => Some(s)
    case _ => None
  }

  /** `Value::to_string`: compact JSON text; object fields in the given order. */
  function Render(v: JsonValue): string
    decreases v, 1
  {
    match v
    case JNull => "null"
    case JBool(b) => if b then "true" else "false"
    case JNumber(n) => IntToString(n)
    case JString(s) => Quote(s)
    case JArray(items) => "[" + RenderItems(items) + "]"
    case JObject(_) => "{" + RenderFields(v, 0) + "}"
  }

  function RenderItems(items: seq<JsonValue>): string
    decreases items, 0
  {
    if items == [] then ""
    else if |items| == 1 then Render(items[0])
    else Render(items[0]) + "," + RenderItems(items[1..])
  }

  /** The members of object `obj` from index `i` on, comma separated. */
  function RenderFields(obj: JsonValue, i: nat): string
    requires obj.JObject? && i <= |obj.fields|
    decreases obj, 0, |obj.fields| - i
  {
    if i == |obj.fields| then ""
    else
      assert obj.fields[i].1 < obj.fields[i] < obj;
      var field := Quote(obj.fields[i].0) + ":" + Render(obj.fields[i].1);
      if i + 1 == |obj.fields| then field else field + "," + RenderFields(obj, i + 1)
  }

  /** A JSON string literal with serde_json's escapes. */
  function Quote(s: string): string
  {
    "\"" + EscapeAll(s) + "\""
  }

  function EscapeAll(s: string): string
  {
    if s == [] then "" else Escape(s[0]) + EscapeAll(s[1..])
  }

  function Escape(c: char): string
  {
    if c == '"' then "\\\""
    else if c == '\\' then "\\\\"
    else if c == '\n' then "\\n"
    else if c == '\r' then "\\r"
    else if c == '\t' then "\\t"
    else if c == '\U{8}' then "\\b"
    else if c == '\U{C}' then "\\f"
    else if (c as int) < 0x20 then "\\u00" + [HexDigit((c as int) / 16), HexDigit((c as int) % 16)]
    else [c]
  }

  function HexDigit(d: nat): char
    requires d < 16
  {
    "0123456789abcdef"[d]
  }

  /** The text a JSON value is substituted by in a prompt: a string's own
      characters, any other value's JSON text. */
  function SubstitutionText(v: JsonValue): string
  {
    if v.JString? then v.s else Render(v)
  }
}
