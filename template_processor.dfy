/** The variable parser and template merger of `TemplateProcessor`. */
module TemplateProcessor {
  import opened Wrappers
  import opened Text
  import opened Json
  import opened JsObject

  // ---------------------------------------------------------------------------
  // The `sections` record: a plain JavaScript object, each key once, listed in the
  // order the language enumerates an object's own keys

  type VarMap = seq<(string, string)>

  function Lookup(m: VarMap, k: string): Option<string>
  {
    if m == [] then None
    else if m[0].0 == k then Some(m[0].1)
    else Lookup(m[1..], k)
  }

  predicate UniqueKeys(m: VarMap)
  {
    forall i, j :: 0 <= i < j < |m| ==> m[i].0 != m[j].0
  }

  /** An array index: the canonical decimal form of an integer below 2^32 - 1. The
      parser's key pattern admits such keys (`1:`, `42:`). */
  predicate IsArrayIndex(k: string)
  {
    k != [] && AllDigits(k) && (k[0] != '0' || |k| == 1) && DigitsValue(k) < 0xFFFF_FFFF
  }

  /** The order in which a JavaScript object lists its own string keys: the array
      indices first, in ascending numeric order, then all other keys. */
  predicate JsOrdered(m: VarMap)
  {
    forall i, j :: 0 <= i < j < |m| && IsArrayIndex(m[j].0) ==>
      IsArrayIndex(m[i].0) && DigitsValue(m[i].0) <= DigitsValue(m[j].0)
  }

  /** The keys that are not array indices, in listing order. */
  function StringKeys(m: VarMap): seq<string>
  {
    if m == [] then [] else (if IsArrayIndex(m[0].0) then [] else [m[0].0]) + StringKeys(m[1..])
  }

  lemma {:induction false} StringKeysAppend(a: VarMap, b: VarMap)
    ensures StringKeys(a + b) == StringKeys(a) + StringKeys(b)
    decreases |a|
  {
    if a != [] {
      assert (a + b)[0] == a[0];
      assert (a + b)[1..] == a[1..] + b;
      StringKeysAppend(a[1..], b);
    } else {
      assert a + b == b;
    }
  }

  /** Where a new array-index key is listed: after every array index whose value is at
      most its own, before the next entry. */
  function IndexSlot(m: VarMap, k: string): (p: nat)
    requires IsArrayIndex(k)
    ensures p <= |m|
    ensures forall i :: 0 <= i < p ==> IsArrayIndex(m[i].0) && DigitsValue(m[i].0) <= DigitsValue(k)
    ensures p < |m| ==> !IsArrayIndex(m[p].0) || DigitsValue(k) < DigitsValue(m[p].0)
  {
    if m == [] || !IsArrayIndex(m[0].0) || DigitsValue(k) < DigitsValue(m[0].0) then 0
    else 1 + IndexSlot(m[1..], k)
  }

  /** Where a new key is listed: an array index in its numeric slot, any other key
      last. */
  function Slot(m: VarMap, k: string): (p: nat)
    ensures p <= |m|
  {
    if IsArrayIndex(k) then IndexSlot(m, k) else |m|
  }

  /** A key the record does not hold yet, added where the object lists it. */
  function AddKey(m: VarMap, k: string, v: string): (r: VarMap)
    ensures |r| == |m| + 1
  {
    var p := Slot(m, k);
    m[..p] + [(k, v)] + m[p..]
  }

  /** A key the record holds, given a new value where it stands. */
  function Overwrite(m: VarMap, k: string, v: string): (r: VarMap)
    ensures |r| == |m|
    ensures forall i :: 0 <= i < |m| ==> r[i] == if m[i].0 == k then (k, v) else m[i]
  {
    if m == [] then [] else [if m[0].0 == k then (k, v) else m[0]] + Overwrite(m[1..], k, v)
  }

  /** `record[k] = v` on a plain JavaScript object: an existing key keeps its place and
      takes the new value; a new array-index key is listed after the array indices no
      larger than it; any other new key is listed last. */
  function Assign(m: VarMap, k: string, v: string): (r: VarMap)
    ensures |r| == if Lookup(m, k).Some? then |m| else |m| + 1
  {
    if Lookup(m, k).Some? then Overwrite(m, k, v) else AddKey(m, k, v)
  }

  lemma {:induction false} LookupAppend(a: VarMap, b: VarMap, k: string)
    ensures Lookup(a + b, k) == if Lookup(a, k).Some? then Lookup(a, k) else Lookup(b, k)
    decreases |a|
  {
    if a != [] {
      assert (a + b)[0] == a[0];
      assert (a + b)[1..] == a[1..] + b;
      LookupAppend(a[1..], b, k);
    } else {
      assert a + b == b;
    }
  }

  /** A key is absent exactly when no entry carries it. */
  lemma {:induction false} LookupNone(m: VarMap, k: string)
    ensures Lookup(m, k).None? <==> forall i :: 0 <= i < |m| ==> m[i].0 != k
    decreases |m|
  {
    if m != [] {
      LookupNone(m[1..], k);
      if m[0].0 != k {
        forall i | 0 < i < |m| ensures m[i] == m[1..][i - 1] { }
      }
    }
  }

  lemma {:induction false} OverwriteLookup(m: VarMap, k: string, v: string, k': string)
    ensures Lookup(Overwrite(m, k, v), k') == if k' == k && Lookup(m, k).Some? then Some(v) else Lookup(m, k')
    decreases |m|
  {
    if m != [] {
      var r := Overwrite(m, k, v);
      assert r[1..] == Overwrite(m[1..], k, v);
      OverwriteLookup(m[1..], k, v, k');
    }
  }

  /** After `record[k] = v`, reading `k` gives `v` and every other key reads as before. */
  lemma AssignLookup(m: VarMap, k: string, v: string)
    ensures Lookup(Assign(m, k, v), k) == Some(v)
    ensures forall k' :: k' != k ==> Lookup(Assign(m, k, v), k') == Lookup(m, k')
  {
    if Lookup(m, k).Some? {
      OverwriteLookup(m, k, v, k);
      forall k' | k' != k ensures Lookup(Assign(m, k, v), k') == Lookup(m, k') {
        OverwriteLookup(m, k, v, k');
      }
    } else {
      var p := Slot(m, k);
      var a, b := m[..p], [(k, v)] + m[p..];
      assert AddKey(m, k, v) == a + b && m == a + m[p..];
      LookupAppend(a, m[p..], k);
      LookupAppend(a, b, k);
      forall k' | k' != k ensures Lookup(Assign(m, k, v), k') == Lookup(m, k') {
        LookupAppend(a, m[p..], k');
        LookupAppend(a, b, k');
      }
    }
  }

  /** The entries of `m[..p] + [e] + m[p..]`, position by position. */
  lemma InsertedAt(m: VarMap, p: nat, e: (string, string))
    requires p <= |m|
    ensures var r := m[..p] + [e] + m[p..];
            |r| == |m| + 1 && r[p] == e
            && (forall i :: 0 <= i < p ==> r[i] == m[i])
            && (forall i :: p < i < |r| ==> r[i] == m[i - 1])
  {
  }

  /** Assignment keeps keys unique and introduces no entry other than `(k, v)`. */
  lemma AssignKeepsUnique(m: VarMap, k: string, v: string)
    requires UniqueKeys(m)
    ensures UniqueKeys(Assign(m, k, v))
    ensures forall i :: 0 <= i < |Assign(m, k, v)| ==> Assign(m, k, v)[i] == (k, v) || Assign(m, k, v)[i] in m
  {
    var r := Assign(m, k, v);
    if Lookup(m, k).None? {
      LookupNone(m, k);
      var p := Slot(m, k);
      InsertedAt(m, p, (k, v));
      forall i, j | 0 <= i < j < |r| ensures r[i].0 != r[j].0 {
        if j < p {
          assert r[i] == m[i] && r[j] == m[j];
        } else if j == p {
          assert r[i] == m[i];
        } else if i < p {
          assert r[i] == m[i] && r[j] == m[j - 1];
        } else if i == p {
          assert r[j] == m[j - 1];
        } else {
          assert r[i] == m[i - 1] && r[j] == m[j - 1];
        }
      }
      forall i | 0 <= i < |r| ensures r[i] == (k, v) || r[i] in m {
        if i < p {
          assert r[i] == m[i];
        } else if i > p {
          assert r[i] == m[i - 1];
        }
      }
    }
  }

  /** Assignment keeps the record in the order a JavaScript object lists its keys. */
  lemma AssignKeepsOrder(m: VarMap, k: string, v: string)
    requires JsOrdered(m)
    ensures JsOrdered(Assign(m, k, v))
  {
    var r := Assign(m, k, v);
    if Lookup(m, k).Some? {
      forall i, j | 0 <= i < j < |r| && IsArrayIndex(r[j].0)
        ensures IsArrayIndex(r[i].0) && DigitsValue(r[i].0) <= DigitsValue(r[j].0)
      {
        assert r[i].0 == m[i].0 && r[j].0 == m[j].0;
      }
    } else {
      var p := Slot(m, k);
      InsertedAt(m, p, (k, v));
      forall i, j | 0 <= i < j < |r| && IsArrayIndex(r[j].0)
        ensures IsArrayIndex(r[i].0) && DigitsValue(r[i].0) <= DigitsValue(r[j].0)
      {
        if j < p {
          assert r[i] == m[i] && r[j] == m[j];
        } else if j == p {
          assert r[i] == m[i];
        } else if i < p {
          assert r[i] == m[i] && r[j] == m[j - 1];
        } else if i == p {
          assert r[j] == m[j - 1];
          if j - 1 > p {
            assert IsArrayIndex(m[p].0) && DigitsValue(m[p].0) <= DigitsValue(m[j - 1].0);
          }
        } else {
          assert r[i] == m[i - 1] && r[j] == m[j - 1];
        }
      }
    }
  }

  lemma {:induction false} StringKeysSameKeys(a: VarMap, b: VarMap)
    requires |a| == |b| && forall i :: 0 <= i < |a| ==> a[i].0 == b[i].0
    ensures StringKeys(a) == StringKeys(b)
    decreases |a|
  {
    if a != [] {
      assert a[0].0 == b[0].0;
      StringKeysSameKeys(a[1..], b[1..]);
    }
  }

  /** The keys other than array indices keep their order; a new one is listed last. */
  lemma AssignStringKeys(m: VarMap, k: string, v: string)
    ensures StringKeys(Assign(m, k, v))
            == StringKeys(m) + if Lookup(m, k).None? && !IsArrayIndex(k) then [k] else []
  {
    if Lookup(m, k).Some? {
      StringKeysSameKeys(Assign(m, k, v), m);
    } else {
      var p := Slot(m, k);
      StringKeysAppend(m[..p] + [(k, v)], m[p..]);
      StringKeysAppend(m[..p], [(k, v)]);
      StringKeysAppend(m[..p], m[p..]);
      assert m[..p] + m[p..] == m;
      assert StringKeys([(k, v)]) == if IsArrayIndex(k) then [] else [k];
      if !IsArrayIndex(k) {
        assert m[p..] == [];
      }
    }
  }

  // ---------------------------------------------------------------------------
  // The key-line pattern  /^([a-zA-Z0-9_]+):\s*(.+?)(?=\r?\n[a-zA-Z0-9_]+:\s*|$)/gms

  /** Where the maximal run of word characters starting at `i` ends. */
  function WordRunEnd(s: string, i: nat): (j: nat)
    requires i <= |s|
    ensures i <= j <= |s|
    decreases |s| - i
  {
    if i < |s| && IsWordChar(s[i]) then WordRunEnd(s, i + 1) else i
  }

  /** Where the maximal run of whitespace starting at `i` ends. */
  function SpaceRunEnd(s: string, i: nat): (j: nat)
    requires i <= |s|
    ensures i <= j <= |s|
    decreases |s| - i
  {
    if i < |s| && IsSpace(s[i]) then SpaceRunEnd(s, i + 1) else i
  }

  /** The first position at or after `i` where a multiline `$` holds: a line
      terminator or the end of the text. */
  function LineEnd(s: string, i: nat): (j: nat)
    requires i <= |s|
    ensures i <= j <= |s|
    decreases |s| - i
  {
    if i < |s| && !IsLineTerminator(s[i]) then LineEnd(s, i + 1) else i
  }

  lemma {:induction false} WordRunSpec(s: string, i: nat)
    requires i <= |s|
    ensures forall k :: i <= k < WordRunEnd(s, i) ==> IsWordChar(s[k])
    ensures WordRunEnd(s, i) == |s| || !IsWordChar(s[WordRunEnd(s, i)])
    decreases |s| - i
  {
    if i < |s| && IsWordChar(s[i]) {
      WordRunSpec(s, i + 1);
    }
  }

  lemma {:induction false} SpaceRunSpec(s: string, i: nat)
    requires i <= |s|
    ensures forall k :: i <= k < SpaceRunEnd(s, i) ==> IsSpace(s[k])
    ensures SpaceRunEnd(s, i) == |s| || !IsSpace(s[SpaceRunEnd(s, i)])
    decreases |s| - i
  {
    if i < |s| && IsSpace(s[i]) {
      SpaceRunSpec(s, i + 1);
    }
  }

  lemma {:induction false} LineEndSpec(s: string, i: nat)
    requires i <= |s|
    ensures forall k :: i <= k < LineEnd(s, i) ==> !IsLineTerminator(s[k])
    ensures LineEnd(s, i) == |s| || IsLineTerminator(s[LineEnd(s, i)])
    decreases |s| - i
  {
    if i < |s| && !IsLineTerminator(s[i]) {
      LineEndSpec(s, i + 1);
    }
  }

  /** Where a multiline `^` holds. */
  predicate AtLineStart(s: string, p: nat)
    requires p <= |s|
  {
    p == 0 || IsLineTerminator(s[p - 1])
  }

  /** One match of the pattern, by position: it starts at `start`, group 1 is
      `s[start..colon]`, group 2 is `s[valueStart..end]` and the match ends at `end`
      (the new `lastIndex`). */
  datatype KeyLine = KeyLine(start: nat, colon: nat, valueStart: nat, end: nat)

  predicate Ordered(m: KeyLine, n: nat)
  {
    m.start < m.colon < m.valueStart <= m.end <= n
  }

  /** The pattern tried at position `p` alone. `\s*` first takes every whitespace
      character, newlines included, and `(.+?)` then runs lazily to the first `$`; only
      when nothing but whitespace is left does `\s*` give one character back to `(.+?)`. */
  function MatchAt(s: string, p: nat): (r: Option<KeyLine>)
    requires p <= |s|
    ensures r.Some? ==> r.value.start == p && Ordered(r.value, |s|)
  {
    if !AtLineStart(s, p) then None
    else
      var k := WordRunEnd(s, p);
      if k == p || k == |s| || s[k] != ':' then None
      else
        var r := SpaceRunEnd(s, k + 1);
        if r < |s| then Some(KeyLine(p, k, r, LineEnd(s, r)))
        else if r > k + 1 then Some(KeyLine(p, k, r - 1, |s|))
        else None
  }

  /** `pattern.exec(s)` with `pattern.lastIndex == from`: the leftmost match at or after
      `from`. */
  function Exec(s: string, from: nat): (r: Option<KeyLine>)
    requires from <= |s|
    ensures r.Some? ==> from <= r.value.start && Ordered(r.value, |s|)
    decreases |s| - from
  {
    match MatchAt(s, from)
    case Some(m) => Some(m)
    case None => if from == |s| then None else Exec(s, from + 1)
  }

  /** A match is a key at the start of a line, immediately followed by `:`. */
  lemma MatchAtShape(s: string, p: nat)
    requires p <= |s| && MatchAt(s, p).Some?
    ensures var m := MatchAt(s, p).value;
            IsIdentifier(s[p..m.colon]) && AtLineStart(s, p) && s[m.colon] == ':'
  {
    WordRunSpec(s, p);
  }

  /** `exec` finds the leftmost position at or after `from` where the pattern matches,
      and fails only when it matches nowhere from there on. */
  lemma {:induction false} ExecIsLeftmost(s: string, from: nat)
    requires from <= |s|
    ensures match Exec(s, from)
            case Some(m) =>
              MatchAt(s, m.start) == Some(m)
              && forall p :: from <= p < m.start ==> MatchAt(s, p).None?
            case None => forall p :: from <= p <= |s| ==> MatchAt(s, p).None?
    decreases |s| - from
  {
    if MatchAt(s, from).None? && from < |s| {
      ExecIsLeftmost(s, from + 1);
    }
  }

  /** The two capture groups of every match the `exec` loop sees, in scan order,
      starting with `lastIndex == from`. */
  function Captures(s: string, from: nat): seq<(string, string)>
    requires from <= |s|
    decreases |s| - from
  {
    match Exec(s, from)
    case None => []
    case Some(m) => [(s[m.start..m.colon], s[m.valueStart..m.end])] + Captures(s, m.end)
  }

  /** The loop body applied to each captured (key, value) pair in turn. */
  function Record(m: VarMap, pairs: seq<(string, string)>): VarMap
    decreases |pairs|
  {
    if pairs == [] then m
    else
      var key, value := Trim(pairs[0].0), Trim(pairs[0].1);
      Record(if key != [] && value != [] then Assign(m, key, value) else m, pairs[1..])
  }

  /** The record before the scan: `template_name` when the stem is non-empty. */
  function Seed(stem: string): VarMap
  {
    if stem != [] then [("template_name", stem)] else []
  }

  /** What `parseVariables(content, stem)` returns. */
  function Variables(content: string, stem: string): VarMap
  {
    Record(Seed(stem), Captures(content, 0))
  }

  /** `parseVariables`: seeds `template_name`, then runs `pattern.exec` until it fails,
      storing every trimmed key with a non-empty trimmed value. */
  method ParseVariables(content: string, docxFilename: string) returns (sections: VarMap)
    ensures sections == Variables(content, docxFilename)
    ensures Exec(content, 0).None? ==> sections == Seed(docxFilename)
  {
    sections := [];
    if docxFilename != [] {
      sections := Assign(sections, "template_name", docxFilename);
      assert sections == Seed(docxFilename);
    }
    var lastIndex := 0;
    var m := Exec(content, lastIndex);
    while m.Some?
      invariant lastIndex <= |content|
      invariant m == Exec(content, lastIndex)
      invariant Record(sections, Captures(content, lastIndex)) == Variables(content, docxFilename)
      decreases |content| - lastIndex
    {
      var key := Trim(content[m.value.start..m.value.colon]);
      var value := Trim(content[m.value.valueStart..m.value.end]);
      if key != [] && value != [] {
        sections := Assign(sections, key, value);
      }
      lastIndex := m.value.end;
      m := Exec(content, lastIndex);
    }
  }

  // ---------------------------------------------------------------------------
  // What the parsed record holds

  /** The value the LAST usable key line for `k` carries: the reference reading of
      "a repeated key takes the last value". */
  function LastValue(pairs: seq<(string, string)>, k: string): Option<string>
    decreases |pairs|
  {
    if pairs == [] then None
    else
      match LastValue(pairs[1..], k)
      case Some(v) => Some(v)
      case None =>
        if k != [] && Trim(pairs[0].0) == k && Trim(pairs[0].1) != []
        then Some(Trim(pairs[0].1)) else None
  }

  lemma {:induction false} RecordLookup(m: VarMap, pairs: seq<(string, string)>, k: string)
    ensures Lookup(Record(m, pairs), k) ==
            match LastValue(pairs, k)
            case Some(v) => Some(v)
            case None => Lookup(m, k)
    decreases |pairs|
  {
    if pairs != [] {
      var key, value := Trim(pairs[0].0), Trim(pairs[0].1);
      var m' := if key != [] && value != [] then Assign(m, key, value) else m;
      RecordLookup(m', pairs[1..], k);
      if key != [] && value != [] {
        AssignLookup(m, key, value);
      }
    }
  }

  /** A key read from the parsed record holds the trimmed value of the last key line
      for it with a non-empty value; failing that, `template_name` holds the stem when
      one was given; every other key is absent. */
  lemma ParsedLookup(content: string, stem: string, k: string)
    ensures Lookup(Variables(content, stem), k) ==
            match LastValue(Captures(content, 0), k)
            case Some(v) => Some(v)
            case None => if k == "template_name" && stem != [] then Some(stem) else None
  {
    RecordLookup(Seed(stem), Captures(content, 0), k);
  }

  /** Recording keeps every entry's key and the listing order of a JavaScript object:
      the keys other than array indices stay in the order they were first assigned. */
  lemma {:induction false} RecordKeepsKeys(m: VarMap, pairs: seq<(string, string)>)
    ensures |m| <= |Record(m, pairs)|
    ensures StringKeys(m) <= StringKeys(Record(m, pairs))
    ensures JsOrdered(m) ==> JsOrdered(Record(m, pairs))
    decreases |pairs|
  {
    if pairs != [] {
      var key, value := Trim(pairs[0].0), Trim(pairs[0].1);
      if key != [] && value != [] {
        AssignStringKeys(m, key, value);
        if JsOrdered(m) {
          AssignKeepsOrder(m, key, value);
        }
        RecordKeepsKeys(Assign(m, key, value), pairs[1..]);
      } else {
        RecordKeepsKeys(m, pairs[1..]);
      }
    }
  }

  /** `template_name` is no array index. */
  lemma NameIsNoIndex()
    ensures !IsArrayIndex("template_name")
  {
    assert "template_name"[0] == 't';
  }

  /** The parsed record is listed as the returned JavaScript object lists it. */
  lemma ParsedJsOrdered(content: string, stem: string)
    ensures JsOrdered(Variables(content, stem))
  {
    RecordKeepsKeys(Seed(stem), Captures(content, 0));
  }

  /** With a non-empty stem, `template_name` is listed first exactly when no captured
      key is an array index; a key such as `1` is listed before it, even when assigned
      after it. */
  lemma TemplateNameFirst(content: string, stem: string)
    requires stem != []
    ensures var r := Variables(content, stem);
            |r| > 0
            && (r[0].0 == "template_name" <==> forall i :: 0 <= i < |r| ==> !IsArrayIndex(r[i].0))
  {
    var r := Variables(content, stem);
    NameIsNoIndex();
    RecordKeepsKeys(Seed(stem), Captures(content, 0));
    assert StringKeys(Seed(stem)) == ["template_name"];
    assert StringKeys(r)[0] == "template_name";
    if !IsArrayIndex(r[0].0) {
      assert StringKeys(r) == [r[0].0] + StringKeys(r[1..]);
    }
  }

  /** Keys are unique identifiers and no value is empty. */
  predicate WellFormed(m: VarMap)
  {
    UniqueKeys(m) && forall i :: 0 <= i < |m| ==> IsIdentifier(m[i].0) && m[i].1 != []
  }

  lemma {:induction false} CapturedKeysAreIdentifiers(s: string, from: nat)
    requires from <= |s|
    ensures forall i :: 0 <= i < |Captures(s, from)| ==> IsIdentifier(Captures(s, from)[i].0)
    decreases |s| - from
  {
    match Exec(s, from)
    case None =>
    case Some(m) =>
      ExecIsLeftmost(s, from);
      MatchAtShape(s, m.start);
      CapturedKeysAreIdentifiers(s, m.end);
  }

  lemma TrimIdentifier(s: string)
    requires IsIdentifier(s)
    ensures Trim(s) == s
  {
    assert !IsSpace(s[0]) && !IsSpace(s[|s| - 1]);
    TrimOfTrimmed(s);
  }

  lemma {:induction false} RecordWellFormed(m: VarMap, pairs: seq<(string, string)>)
    requires WellFormed(m)
    requires forall i :: 0 <= i < |pairs| ==> IsIdentifier(pairs[i].0)
    ensures WellFormed(Record(m, pairs))
    decreases |pairs|
  {
    if pairs != [] {
      var key, value := Trim(pairs[0].0), Trim(pairs[0].1);
      if key != [] && value != [] {
        TrimIdentifier(pairs[0].0);
        AssignKeepsUnique(m, key, value);
        var m' := Assign(m, key, value);
        forall i | 0 <= i < |m'| ensures IsIdentifier(m'[i].0) && m'[i].1 != [] {
          if m'[i] != (key, value) {
            var j :| 0 <= j < |m| && m[j] == m'[i];
          }
        }
        RecordWellFormed(m', pairs[1..]);
      } else {
        RecordWellFormed(m, pairs[1..]);
      }
    }
  }

  /** The parsed record never repeats a key, every key is an identifier (`template_name`
      included) and no value is empty. */
  lemma ParsedWellFormed(content: string, stem: string)
    ensures WellFormed(Variables(content, stem))
  {
    CapturedKeysAreIdentifiers(content, 0);
    RecordWellFormed(Seed(stem), Captures(content, 0));
  }

  /** A key line whose rest of line holds something other than whitespace yields that
      rest of line, trimmed, and the match ends at the line's end. */
  lemma KeyLineValue(s: string, p: nat)
    requires p <= |s| && AtLineStart(s, p)
    requires var k := WordRunEnd(s, p);
             k > p && k < |s| && s[k] == ':' && !AllSpace(s[k + 1..LineEnd(s, k + 1)])
    ensures var k := WordRunEnd(s, p);
            var e := LineEnd(s, k + 1);
            MatchAt(s, p).Some? && MatchAt(s, p).value.colon == k && MatchAt(s, p).value.end == e
            && Trim(s[MatchAt(s, p).value.valueStart..e]) == Trim(s[k + 1..e])
  {
    var k := WordRunEnd(s, p);
    var e := LineEnd(s, k + 1);
    var r := SpaceRunEnd(s, k + 1);
    SpaceRunSpec(s, k + 1);
    FirstNonSpaceInLine(s, k + 1);
    LineEndFrom(s, k + 1, r);
    var m := MatchAt(s, p);
    assert m == Some(KeyLine(p, k, r, e));
    LeadingSpaceOfLine(s, k + 1, r, e);
  }

  /** A key line with only whitespace after its colon: `\s*` runs on across the line
      break, so the value is the next line holding something other than whitespace
      (its leading whitespace skipped), even when that line is itself a key line; when
      only whitespace follows, what is captured trims to nothing and is not recorded. */
  lemma BlankRestTakesNextLine(s: string, p: nat)
    requires p <= |s| && AtLineStart(s, p)
    requires var k := WordRunEnd(s, p);
             k > p && k < |s| && s[k] == ':' && AllSpace(s[k + 1..LineEnd(s, k + 1)])
    ensures var k := WordRunEnd(s, p);
            var r := SpaceRunEnd(s, k + 1);
            (r < |s| ==>
               MatchAt(s, p) == Some(KeyLine(p, k, r, LineEnd(s, r)))
               && LineEnd(s, k + 1) < r < LineEnd(s, r)
               && Trim(s[r..LineEnd(s, r)]) != [])
            && (r == |s| ==>
                  MatchAt(s, p).None?
                  || Trim(s[MatchAt(s, p).value.valueStart..MatchAt(s, p).value.end]) == [])
  {
    var k := WordRunEnd(s, p);
    var r := SpaceRunEnd(s, k + 1);
    SpaceRunPastLine(s, k + 1);
    if r < |s| {
      SpaceRunSpec(s, k + 1);
      NonBlankLineRest(s, r);
    } else if r > k + 1 {
      SpaceRunSpec(s, k + 1);
      assert s[r - 1..|s|] == [s[r - 1]];
      TrimEmpty(s[r - 1..|s|]);
    }
  }

  /** A whitespace run that starts on a blank rest of line runs past its line break
      or to the end of the text. */
  lemma SpaceRunPastLine(s: string, i: nat)
    requires i <= |s| && AllSpace(s[i..LineEnd(s, i)])
    ensures SpaceRunEnd(s, i) == |s| || LineEnd(s, i) < SpaceRunEnd(s, i)
  {
    var e := LineEnd(s, i);
    var r := SpaceRunEnd(s, i);
    SpaceRunSpec(s, i);
    LineEndSpec(s, i);
  }

  /** The rest of a line that starts with a character other than whitespace is
      nonempty and does not trim to nothing. */
  lemma NonBlankLineRest(s: string, r: nat)
    requires r < |s| && !IsSpace(s[r])
    ensures r < LineEnd(s, r) && Trim(s[r..LineEnd(s, r)]) != []
  {
    var v := s[r..LineEnd(s, r)];
    assert v[0] == s[r];
    TrimEmpty(v);
  }

  /** In `a:` followed by the line `b: c`, the line `b: c` becomes the value of `a`
      and `b` is never captured. */
  lemma NextKeyLineSwallowed()
    ensures Variables("a:\nb: c", "") == [("a", "b: c")]
  {
    var s := "a:\nb: c";
    assert WordRunEnd(s, 1) == 1;
    assert WordRunEnd(s, 0) == 1;
    assert SpaceRunEnd(s, 3) == 3;
    assert SpaceRunEnd(s, 2) == 3;
    assert LineEnd(s, 3) == 7 by {
      assert LineEnd(s, 7) == 7;
      assert LineEnd(s, 6) == 7;
      assert LineEnd(s, 5) == 7;
      assert LineEnd(s, 4) == 7;
    }
    assert MatchAt(s, 0) == Some(KeyLine(0, 1, 3, 7));
    assert Exec(s, 0) == Some(KeyLine(0, 1, 3, 7));
    assert MatchAt(s, 7).None?;
    assert Captures(s, 7) == [];
    assert s[0..1] == "a" && s[3..7] == "b: c";
    assert Captures(s, 0) == [("a", "b: c")];
    TrimOfTrimmed("a");
    TrimOfTrimmed("b: c");
  }

  lemma FirstNonSpaceInLine(s: string, i: nat)
    requires i <= |s| && !AllSpace(s[i..LineEnd(s, i)])
    ensures SpaceRunEnd(s, i) < LineEnd(s, i)
  {
    var e, r := LineEnd(s, i), SpaceRunEnd(s, i);
    SpaceRunSpec(s, i);
  }

  lemma LeadingSpaceOfLine(s: string, i: nat, r: nat, e: nat)
    requires i <= r <= e <= |s|
    requires forall x :: i <= x < r ==> IsSpace(s[x])
    ensures Trim(s[r..e]) == Trim(s[i..e])
  {
    var rest := s[i..e];
    var lead := rest[..r - i];
    forall x | 0 <= x < |lead| ensures IsSpace(lead[x]) {
      assert lead[x] == s[i + x];
    }
    assert rest[r - i..] == s[r..e];
    TrimDropsLeadingSpace(rest, r - i);
  }

  /** Skipping characters that are not line terminators does not move the line end. */
  lemma LineEndFrom(s: string, i: nat, j: nat)
    requires i <= |s| && i <= j <= LineEnd(s, i)
    ensures LineEnd(s, j) == LineEnd(s, i)
    decreases j - i
  {
    if i < j {
      LineEndFrom(s, i + 1, j);
    }
  }

  lemma {:induction false} TrimDropsLeadingSpace(t: string, n: nat)
    requires n <= |t| && AllSpace(t[..n])
    ensures Trim(t[n..]) == Trim(t)
  {
    if n > 0 {
      assert IsSpace(t[0]);
      assert TrimStart(t) == TrimStart(t[1..]);
      assert t[1..][n - 1..] == t[n..];
      assert t[1..][..n - 1] == t[1..n];
      TrimDropsLeadingSpace(t[1..], n - 1);
    }
  }

  // ---------------------------------------------------------------------------
  // Round trip: `key: value` lines read back as the entries they were written from

  /** The line `key: value`. */
  function KeyValueLine(e: (string, string)): string
  {
    e.0 + ": " + e.1
  }

  /** Entries written one per line, separated by `\n`. */
  function Render(entries: VarMap): string
  {
    if entries == [] then []
    else if |entries| == 1 then KeyValueLine(entries[0])
    else KeyValueLine(entries[0]) + "\n" + Render(entries[1..])
  }

  /** A value that fits on one line and is already trimmed. */
  predicate OneLineValue(v: string)
  {
    v != [] && !IsSpace(v[0]) && !IsSpace(v[|v| - 1])
    && forall i :: 0 <= i < |v| ==> !IsLineTerminator(v[i])
  }

  predicate Renderable(entries: VarMap)
  {
    forall i :: 0 <= i < |entries| ==> IsIdentifier(entries[i].0) && OneLineValue(entries[i].1)
  }

  /** `MatchAt` read off the positions the scanner reaches: a match, or no match. */
  lemma MatchAtLine(s: string, p: nat, k: nat, r: nat)
    requires p <= |s| && AtLineStart(s, p) && k == WordRunEnd(s, p)
    requires p < k < |s| && s[k] == ':' && r == SpaceRunEnd(s, k + 1) && r < |s|
    ensures MatchAt(s, p) == Some(KeyLine(p, k, r, LineEnd(s, r)))
  {
  }

  lemma MatchAtFails(s: string, p: nat)
    requires p <= |s|
    requires var k := WordRunEnd(s, p);
             !AtLineStart(s, p) || k == p || k == |s| || s[k] != ':' || SpaceRunEnd(s, k + 1) == |s| == k + 1
    ensures MatchAt(s, p) == None
  {
  }

  lemma CapturesNone(s: string, from: nat)
    requires from <= |s| && Exec(s, from).None?
    ensures Captures(s, from) == []
  {
  }

  lemma CapturesSome(s: string, from: nat, m: KeyLine)
    requires from <= |s| && Exec(s, from) == Some(m)
    ensures Ordered(m, |s|)
    ensures Captures(s, from) == [(s[m.start..m.colon], s[m.valueStart..m.end])] + Captures(s, m.end)
  {
  }

  /** The line `key: value` for entry `e` sits in `s` from position `p` on. */
  predicate LineAt(s: string, p: nat, e: (string, string))
  {
    IsIdentifier(e.0) && OneLineValue(e.1)
    && p + |KeyValueLine(e)| <= |s| && s[p..p + |KeyValueLine(e)|] == KeyValueLine(e)
  }

  /** Where the key, the colon, the space and the value of such a line sit in `s`. */
  lemma LineLayout(s: string, p: nat, e: (string, string))
    requires LineAt(s, p, e)
    ensures |KeyValueLine(e)| == |e.0| + 2 + |e.1|
    ensures forall x :: p <= x < p + |e.0| ==> IsWordChar(s[x])
    ensures s[p + |e.0|] == ':' && s[p + |e.0| + 1] == ' ' && !IsSpace(s[p + |e.0| + 2])
    ensures forall x :: p + |e.0| + 2 <= x < p + |KeyValueLine(e)| ==> !IsLineTerminator(s[x])
    ensures !IsLineTerminator(s[p + |KeyValueLine(e)| - 1])
    ensures s[p..p + |e.0|] == e.0 && s[p + |e.0| + 2..p + |KeyValueLine(e)|] == e.1
  {
    var k, v := e.0, e.1;
    var line := KeyValueLine(e);
    var n := |line|;
    assert line == k + ": " + v;
    forall x | 0 <= x < n ensures s[p + x] == line[x] {
      assert s[p..p + n][x] == s[p + x];
    }
    forall x | p <= x < p + |k| ensures IsWordChar(s[x]) {
      assert s[x] == line[x - p] == k[x - p];
    }
    assert s[p + |k|] == line[|k|];
    assert s[p + |k| + 1] == line[|k| + 1];
    assert s[p + |k| + 2] == line[|k| + 2] == v[0];
    forall x | p + |k| + 2 <= x < p + n ensures !IsLineTerminator(s[x]) {
      assert s[x] == line[x - p] == v[x - p - |k| - 2];
    }
    assert s[p..p + |k|] == k by {
      forall x | 0 <= x < |k| ensures s[p..p + |k|][x] == k[x] {
        assert s[p + x] == line[x];
      }
    }
    assert s[p + |k| + 2..p + n] == v by {
      forall x | 0 <= x < |v| ensures s[p + |k| + 2..p + n][x] == v[x] {
        assert s[p + |k| + 2 + x] == line[|k| + 2 + x];
      }
    }
  }

  /** A key line that starts a line of `s` at `p`, and ends at a line break or at the
      end, is the match found from `p`, with exactly that key and value. */
  lemma MatchLine(s: string, p: nat, e: (string, string))
    requires LineAt(s, p, e) && AtLineStart(s, p)
    requires var n := p + |KeyValueLine(e)|;
             n == |s| || IsLineTerminator(s[n])
    ensures Exec(s, p) == Some(KeyLine(p, p + |e.0|, p + |e.0| + 2, p + |KeyValueLine(e)|))
  {
    var k := e.0;
    var n := p + |KeyValueLine(e)|;
    LineLayout(s, p, e);
    RunEndsAt(s, p, p + |k|);
    assert SpaceRunEnd(s, p + |k| + 2) == p + |k| + 2;
    LineEndsAt(s, p + |k| + 2, n);
    MatchAtLine(s, p, p + |k|, p + |k| + 2);
  }

  /** Right after a key line the pattern cannot match: that position does not start a
      line. */
  lemma NoMatchMidLine(s: string, p: nat, e: (string, string))
    requires LineAt(s, p, e)
    ensures var n := p + |KeyValueLine(e)|;
            (n < |s| ==> Exec(s, n) == Exec(s, n + 1)) && (n == |s| ==> Exec(s, n) == None)
  {
    var n := p + |KeyValueLine(e)|;
    LineLayout(s, p, e);
    assert !AtLineStart(s, n);
    MatchAtFails(s, n);
  }

  /** From the start of a key line, the scan captures that entry first, then whatever
      it captures after the line break. */
  lemma LineCaptures(s: string, p: nat, e: (string, string))
    requires LineAt(s, p, e) && AtLineStart(s, p)
    requires var n := p + |KeyValueLine(e)|;
             n == |s| || IsLineTerminator(s[n])
    ensures var n := p + |KeyValueLine(e)|;
            Captures(s, p) == [e] + (if n == |s| then [] else Captures(s, n + 1))
  {
    var n := p + |KeyValueLine(e)|;
    var m := KeyLine(p, p + |e.0|, p + |e.0| + 2, n);
    MatchLine(s, p, e);
    CapturesSome(s, p, m);
    LineGroups(s, p, e);
    LineEndCaptures(s, p, e);
  }

  /** The two groups of a key line are its key and its value. */
  lemma LineGroups(s: string, p: nat, e: (string, string))
    requires LineAt(s, p, e)
    ensures var n := p + |KeyValueLine(e)|;
            p + |e.0| + 2 <= n <= |s|
            && (s[p..p + |e.0|], s[p + |e.0| + 2..n]) == e
  {
    LineLayout(s, p, e);
  }

  /** After a key line, the scan goes on from the next line, or ends. */
  lemma LineEndCaptures(s: string, p: nat, e: (string, string))
    requires LineAt(s, p, e)
    ensures var n := p + |KeyValueLine(e)|;
            Captures(s, n) == (if n == |s| then [] else Captures(s, n + 1))
  {
    var n := p + |KeyValueLine(e)|;
    NoMatchMidLine(s, p, e);
    assert (n < |s| ==> Exec(s, n) == Exec(s, n + 1)) && (n == |s| ==> Exec(s, n) == None);
    CapturesSkip(s, n);
  }

  /** Where no match can start, the scan goes on from the next position, or ends. */
  lemma CapturesSkip(s: string, n: nat)
    requires n <= |s|
    requires (n < |s| ==> Exec(s, n) == Exec(s, n + 1)) && (n == |s| ==> Exec(s, n) == None)
    ensures Captures(s, n) == (if n == |s| then [] else Captures(s, n + 1))
  {
  }

  lemma {:induction false} RunEndsAt(s: string, i: nat, j: nat)
    requires i <= j <= |s|
    requires forall x :: i <= x < j ==> IsWordChar(s[x])
    requires j == |s| || !IsWordChar(s[j])
    ensures WordRunEnd(s, i) == j
    decreases j - i
  {
    if i < j {
      RunEndsAt(s, i + 1, j);
    }
  }

  lemma {:induction false} LineEndsAt(s: string, i: nat, j: nat)
    requires i <= j <= |s|
    requires forall x :: i <= x < j ==> !IsLineTerminator(s[x])
    requires j == |s| || IsLineTerminator(s[j])
    ensures LineEnd(s, i) == j
    decreases j - i
  {
    if i < j {
      LineEndsAt(s, i + 1, j);
    }
  }

  /** Scanning rendered entries captures exactly those entries, in order. */
  lemma RenderScans(entries: VarMap)
    requires Renderable(entries)
    ensures Captures(Render(entries), 0) == entries
  {
    var s := Render(entries);
    if entries == [] {
      MatchAtFails(s, 0);
      CapturesNone(s, 0);
    } else {
      assert s[0..] == s;
      RenderedLines(s, 0, entries);
      RenderScansFrom(s, 0, entries);
    }
  }

  /** The lines rendered from `entries` sit one after another in `s` from `p` on, and
      the last one ends `s`. */
  predicate RenderedFrom(s: string, p: nat, entries: VarMap)
    decreases |entries|
  {
    entries != [] && LineAt(s, p, entries[0])
    && var n := p + |KeyValueLine(entries[0])|;
       if |entries| == 1 then n == |s|
       else n < |s| && s[n] == '\n' && RenderedFrom(s, n + 1, entries[1..])
  }

  lemma {:induction false} RenderedLines(s: string, p: nat, entries: VarMap)
    requires Renderable(entries) && entries != []
    requires p <= |s| && s[p..] == Render(entries)
    ensures RenderedFrom(s, p, entries)
    decreases |entries|
  {
    RenderedAt(s, p, entries);
    if |entries| > 1 {
      RenderedLines(s, p + |KeyValueLine(entries[0])| + 1, entries[1..]);
    }
  }

  /** Scanning from the start of a line where rendered entries run to the end of `s`
      captures those entries. */
  lemma {:induction false} RenderScansFrom(s: string, p: nat, entries: VarMap)
    requires p <= |s| && RenderedFrom(s, p, entries) && AtLineStart(s, p)
    ensures Captures(s, p) == entries
    decreases |entries|
  {
    var e := entries[0];
    var n := p + |KeyValueLine(e)|;
    if |entries| == 1 {
      LineCaptures(s, p, e);
      assert entries == [e];
    } else {
      RenderScansFrom(s, n + 1, entries[1..]);
      NextLineCaptures(s, p, e, entries[1..]);
      assert entries == [e] + entries[1..];
    }
  }

  lemma NextLineCaptures(s: string, p: nat, e: (string, string), tail: VarMap)
    requires LineAt(s, p, e) && AtLineStart(s, p)
    requires var n := p + |KeyValueLine(e)|;
             n < |s| && IsLineTerminator(s[n]) && Captures(s, n + 1) == tail
    ensures Captures(s, p) == [e] + tail
  {
    LineCaptures(s, p, e);
  }

  /** Where the first rendered line and the rest sit in `s`. */
  lemma RenderedAt(s: string, p: nat, entries: VarMap)
    requires Renderable(entries) && entries != []
    requires p <= |s| && s[p..] == Render(entries)
    ensures LineAt(s, p, entries[0])
    ensures var n := p + |KeyValueLine(entries[0])|;
            (|entries| == 1 ==> n == |s|)
            && (|entries| > 1 ==> n < |s| && s[n] == '\n' && s[n + 1..] == Render(entries[1..])
                                  && AtLineStart(s, n + 1) && Renderable(entries[1..]))
  {
    var e := entries[0];
    var line := KeyValueLine(e);
    assert IsIdentifier(e.0) && OneLineValue(e.1);
    if |entries| == 1 {
      RenderedLast(s, p, line);
    } else {
      RenderedSplit(s, p, line, Render(entries[1..]));
      forall i | 0 <= i < |entries| - 1
        ensures IsIdentifier(entries[1..][i].0) && OneLineValue(entries[1..][i].1)
      {
        assert entries[1..][i] == entries[i + 1];
      }
    }
  }

  lemma RenderedLast(s: string, p: nat, line: string)
    requires p <= |s| && s[p..] == line
    ensures p + |line| == |s| && s[p..p + |line|] == line
  {
  }

  lemma RenderedSplit(s: string, p: nat, line: string, rest: string)
    requires p <= |s| && s[p..] == line + "\n" + rest
    ensures p + |line| < |s| && s[p..p + |line|] == line && s[p + |line|] == '\n'
    ensures s[p + |line| + 1..] == rest
  {
    var t := line + "\n" + rest;
    assert s[p..p + |line|] == t[..|line|];
    assert s[p + |line|] == t[|line|];
    assert s[p + |line| + 1..] == t[|line| + 1..];
  }

  /** The entries added one after another as new keys of a JavaScript object. */
  function AddAll(m: VarMap, entries: VarMap): VarMap
    decreases |entries|
  {
    if entries == [] then m else AddAll(AddKey(m, entries[0].0, entries[0].1), entries[1..])
  }

  /** Assigning entries whose keys are new and distinct adds them one by one. */
  lemma {:induction false} RecordAppends(m: VarMap, entries: VarMap)
    requires Renderable(entries) && UniqueKeys(entries)
    requires forall i, j :: 0 <= i < |m| && 0 <= j < |entries| ==> m[i].0 != entries[j].0
    ensures Record(m, entries) == AddAll(m, entries)
    decreases |entries|
  {
    if entries != [] {
      var e := entries[0];
      RecordAppendsStep(m, entries);
      KeysStayDisjoint(m, entries);
      RecordAppends(AddKey(m, e.0, e.1), entries[1..]);
    }
  }

  lemma MoveFirst<T>(m: seq<T>, entries: seq<T>)
    requires entries != []
    ensures (m + [entries[0]]) + entries[1..] == m + entries
  {
  }

  lemma RecordAppendsStep(m: VarMap, entries: VarMap)
    requires entries != [] && Renderable(entries)
    requires forall j :: 0 <= j < |m| ==> m[j].0 != entries[0].0
    ensures Record(m, entries) == Record(AddKey(m, entries[0].0, entries[0].1), entries[1..])
    ensures Renderable(entries[1..])
  {
    var e := entries[0];
    assert IsIdentifier(e.0) && OneLineValue(e.1);
    TrimIdentifier(e.0);
    TrimOfTrimmed(e.1);
    LookupNone(m, e.0);
  }

  lemma KeysStayDisjoint(m: VarMap, entries: VarMap)
    requires entries != [] && UniqueKeys(entries)
    requires forall i, j :: 0 <= i < |m| && 0 <= j < |entries| ==> m[i].0 != entries[j].0
    ensures UniqueKeys(entries[1..])
    ensures forall i, j :: 0 <= i < |m| + 1 && 0 <= j < |entries| - 1 ==>
              AddKey(m, entries[0].0, entries[0].1)[i].0 != entries[1..][j].0
  {
    var e := entries[0];
    var m', rest := AddKey(m, e.0, e.1), entries[1..];
    var p := Slot(m, e.0);
    InsertedAt(m, p, (e.0, e.1));
    forall i, j | 0 <= i < |m'| && 0 <= j < |rest| ensures m'[i].0 != rest[j].0 {
      assert rest[j] == entries[j + 1];
      if i == p {
        assert m'[i].0 == entries[0].0;
      } else if i < p {
        assert m'[i] == m[i];
      } else {
        assert m'[i] == m[i - 1];
      }
    }
  }

  /** New keys that are no array indices are listed after the existing ones, in the
      order they were added. */
  lemma {:induction false} AddAllPlain(m: VarMap, entries: VarMap)
    requires forall i :: 0 <= i < |entries| ==> !IsArrayIndex(entries[i].0)
    ensures AddAll(m, entries) == m + entries
    decreases |entries|
  {
    if entries != [] {
      var e := entries[0];
      assert AddKey(m, e.0, e.1) == m + [e] by {
        assert m[..|m|] == m && m[|m|..] == [];
      }
      AddAllPlain(m + [e], entries[1..]);
      MoveFirst(m, entries);
    }
  }

  /** Entries with distinct keys, written as `key: value` lines, parse back to exactly
      those entries, added after `template_name` when a stem is given and no entry uses
      it; when no key is an array index they are listed in the order written. */
  lemma RenderRoundTrip(entries: VarMap, stem: string)
    requires Renderable(entries) && UniqueKeys(entries)
    requires forall i :: 0 <= i < |entries| ==> entries[i].0 != "template_name"
    ensures Variables(Render(entries), stem) == AddAll(Seed(stem), entries)
    ensures (forall i :: 0 <= i < |entries| ==> !IsArrayIndex(entries[i].0))
            ==> Variables(Render(entries), stem) == Seed(stem) + entries
  {
    RenderScans(entries);
    SeedDisjoint(stem, entries);
    RecordAppends(Seed(stem), entries);
    if forall i :: 0 <= i < |entries| ==> !IsArrayIndex(entries[i].0) {
      AddAllPlain(Seed(stem), entries);
    }
  }

  lemma SeedDisjoint(stem: string, entries: VarMap)
    requires forall i :: 0 <= i < |entries| ==> entries[i].0 != "template_name"
    ensures forall i, j :: 0 <= i < |Seed(stem)| && 0 <= j < |entries| ==> Seed(stem)[i].0 != entries[j].0
  {
  }

  /** The AI output `1: a` for the document `doc` yields a record whose first key is
      `1`, not `template_name`, although `template_name` was assigned first. */
  lemma IndexKeyListedFirst()
    ensures Variables("1: a", "doc") == [("1", "a"), ("template_name", "doc")]
  {
    var entries := [("1", "a")];
    assert IsIdentifier("1") && OneLineValue("a");
    assert Render(entries) == "1: a";
    RenderRoundTrip(entries, "doc");
    assert IsArrayIndex("1");
    NameIsNoIndex();
    assert AddKey(Seed("doc"), "1", "a") == [("1", "a"), ("template_name", "doc")];
  }

  /** When keys repeat, the parsed record reads every key as its last rendered value. */
  lemma RenderLastWins(entries: VarMap, k: string)
    requires Renderable(entries) && k != "template_name"
    ensures Lookup(Variables(Render(entries), ""), k) == LastValue(entries, k)
  {
    RenderScans(entries);
    ParsedLookup(Render(entries), "", k);
  }

  // ---------------------------------------------------------------------------
  // Finding: `sections[key] = value` with the key `__proto__`

  /** `record[k] = v` as a plain JavaScript object runs it: the key `__proto__` reaches
      the accessor every object inherits, which ignores a string, so nothing is stored. */
  function AssignAsWritten(m: VarMap, k: string, v: string): (r: VarMap)
    ensures k == "__proto__" ==> r == m
    ensures k != "__proto__" ==> r == Assign(m, k, v)
  {
    if k == "__proto__" then m else Assign(m, k, v)
  }

  /** A `__proto__: x` line is a key line like any other, yet as written its entry never
      reaches the record; the corrected assignment stores it. */
  lemma ProtoLineDropped(v: string)
    ensures Lookup(AssignAsWritten([], "__proto__", v), "__proto__") == None
    ensures Lookup(Assign([], "__proto__", v), "__proto__") == Some(v)
  {
  }

  /** The loop of `parseVariables` as written: every pair stored by `AssignAsWritten`. */
  function RecordAsWritten(m: VarMap, pairs: seq<(string, string)>): VarMap
    decreases |pairs|
  {
    if pairs == [] then m
    else
      var key, value := Trim(pairs[0].0), Trim(pairs[0].1);
      RecordAsWritten(if key != [] && value != [] then AssignAsWritten(m, key, value) else m, pairs[1..])
  }

  /** As written, no line of any text changes what `__proto__` reads as, while the
      corrected record reads it as its last line (`RecordLookup`); every other key reads
      the same in both. */
  lemma {:induction false} RecordAsWrittenLookup(m: VarMap, pairs: seq<(string, string)>, k: string)
    ensures k == "__proto__" ==> Lookup(RecordAsWritten(m, pairs), k) == Lookup(m, k)
    ensures k != "__proto__" ==> Lookup(RecordAsWritten(m, pairs), k) == Lookup(Record(m, pairs), k)
    decreases |pairs|
  {
    RecordLookup(m, pairs, k);
    if pairs != [] {
      var key, value := Trim(pairs[0].0), Trim(pairs[0].1);
      var m' := if key != [] && value != [] then AssignAsWritten(m, key, value) else m;
      RecordAsWrittenLookup(m', pairs[1..], k);
      RecordLookup(m', pairs[1..], k);
      if key != [] && value != [] && key != "__proto__" {
        AssignLookup(m, key, value);
      }
    }
  }

  // ---------------------------------------------------------------------------
  // The placeholder pattern  /\{\{\s*([^}]+)\s*\}\}/g

  /** The first `}` at or after `i`, or the end of the text. */
  function CloseBrace(s: string, i: nat): (j: nat)
    requires i <= |s|
    ensures i <= j <= |s|
    decreases |s| - i
  {
    if i < |s| && s[i] != '}' then CloseBrace(s, i + 1) else i
  }

  lemma {:induction false} CloseBraceSpec(s: string, i: nat)
    requires i <= |s|
    ensures forall k :: i <= k < CloseBrace(s, i) ==> s[k] != '}'
    ensures CloseBrace(s, i) == |s| || s[CloseBrace(s, i)] == '}'
    decreases |s| - i
  {
    if i < |s| && s[i] != '}' {
      CloseBraceSpec(s, i + 1);
    }
  }

  /** The pattern tried at `p` alone. `[^}]+` can only stop at the first `}` after the
      opening `{{`, and the two `\s*` only share out the whitespace around it, so the
      pattern matches exactly when at least one character precedes that `}` and a
      second `}` follows it. The result is the position of that first `}`. */
  function TokenAt(s: string, p: nat): (r: Option<nat>)
    requires p <= |s|
    ensures r.Some? ==> p + 2 < r.value && r.value + 2 <= |s|
  {
    if p + 1 < |s| && s[p] == '{' && s[p + 1] == '{' then
      var f := CloseBrace(s, p + 2);
      if f > p + 2 && f + 1 < |s| && s[f + 1] == '}' then Some(f) else None
    else None
  }

  /** `s.replace(pattern, callback)` from position `i`: each leftmost match is replaced
      by the callback applied to the text between its braces, which is the whitespace
      the leading `\s*` skips followed by the captured group (the callback's `trim`
      removes the difference); scanning resumes after it; other characters are copied. */
  function ReplaceFrom(s: string, i: nat, resolve: string -> string): string
    requires i <= |s|
    decreases |s| - i
  {
    if i == |s| then []
    else match TokenAt(s, i)
      case Some(f) => resolve(s[i + 2..f]) + ReplaceFrom(s, f + 2, resolve)
      case None => [s[i]] + ReplaceFrom(s, i + 1, resolve)
  }

  /** `variables[key] || ''`, reading own entries only: the value when the record has
      one, otherwise the empty string. */
  function Resolve(vars: VarMap, key: string): (r: string)
    ensures r == [] || Lookup(vars, key) == Some(r)
    ensures Lookup(vars, key).None? ==> r == []
  {
    match Lookup(vars, key)
    case Some(v) => v
    case None => []
  }

  /** The callback of `processTemplate`: `(match, key) => variables[key.trim()] || ''`. */
  function Callback(vars: VarMap): string -> string
  {
    k => ResolveKey(vars, k)
  }

  /** What the callback makes of a captured key. */
  function ResolveKey(vars: VarMap, key: string): string
  {
    Resolve(vars, Trim(key))
  }

  /** The string leaf rewrite of `processTemplate`. */
  function Replace(s: string, vars: VarMap): string
  {
    ReplaceFrom(s, 0, Callback(vars))
  }

  /** `t` is what `s` holds from position `n` on. */
  predicate Agrees(s: string, n: nat, t: string)
  {
    n + |t| == |s| && forall k {:trigger t[k]} :: 0 <= k < |t| ==> s[n + k] == t[k]
  }

  lemma AgreesSlice(s: string, n: nat, t: string, a: nat, b: nat)
    requires Agrees(s, n, t) && a <= b <= |t|
    ensures s[n + a..n + b] == t[a..b]
  {
    forall k | 0 <= k < b - a
      ensures s[n + a..n + b][k] == t[a..b][k]
    {
      assert t[a + k] == s[n + a + k];
    }
  }

  /** Scanning for placeholders looks only forward, so text in front does not change
      how the rest is rewritten. */
  lemma {:induction false} ReplaceShift(s: string, n: nat, t: string, i: nat, resolve: string -> string)
    requires Agrees(s, n, t) && i <= |t|
    ensures ReplaceFrom(s, n + i, resolve) == ReplaceFrom(t, i, resolve)
    decreases |t| - i, 1
  {
    if i < |t| {
      TokenAtShift(s, n, t, i);
      if TokenAt(t, i).Some? {
        ShiftTokenStep(s, n, t, i, TokenAt(t, i).value, resolve);
      } else {
        ShiftCopyStep(s, n, t, i, resolve);
      }
    }
  }

  lemma {:induction false} ShiftTokenStep(s: string, n: nat, t: string, i: nat, f: nat, resolve: string -> string)
    requires Agrees(s, n, t) && i < |t| && TokenAt(t, i) == Some(f) && TokenAt(s, n + i) == Some(n + f)
    requires s[n + i + 2..n + f] == t[i + 2..f]
    ensures ReplaceFrom(s, n + i, resolve) == ReplaceFrom(t, i, resolve)
    decreases |t| - i, 0
  {
    ReplaceShift(s, n, t, f + 2, resolve);
    ShiftedToken(s, n, t, i, f, resolve);
  }

  lemma ShiftedToken(s: string, n: nat, t: string, i: nat, f: nat, resolve: string -> string)
    requires n + i < |s| && i < |t| && TokenAt(t, i) == Some(f) && TokenAt(s, n + i) == Some(n + f)
    requires s[n + i + 2..n + f] == t[i + 2..f]
    requires ReplaceFrom(s, n + f + 2, resolve) == ReplaceFrom(t, f + 2, resolve)
    ensures ReplaceFrom(s, n + i, resolve) == ReplaceFrom(t, i, resolve)
  {
    SameTokenStep(s, t, n + i, i, n + f, f, resolve);
  }

  lemma {:induction false} ShiftCopyStep(s: string, n: nat, t: string, i: nat, resolve: string -> string)
    requires Agrees(s, n, t) && i < |t| && TokenAt(t, i).None? && TokenAt(s, n + i).None?
    ensures ReplaceFrom(s, n + i, resolve) == ReplaceFrom(t, i, resolve)
    decreases |t| - i, 0
  {
    ReplaceShift(s, n, t, i + 1, resolve);
    ShiftedCopy(s, n, t, i, resolve);
  }

  lemma ShiftedCopy(s: string, n: nat, t: string, i: nat, resolve: string -> string)
    requires Agrees(s, n, t) && i < |t| && TokenAt(t, i).None? && TokenAt(s, n + i).None?
    requires ReplaceFrom(s, n + i + 1, resolve) == ReplaceFrom(t, i + 1, resolve)
    ensures ReplaceFrom(s, n + i, resolve) == ReplaceFrom(t, i, resolve)
  {
    assert t[i] == s[n + i];
    SameCopyStep(s, t, n + i, i, resolve);
  }

  lemma SameTokenStep(s: string, t: string, a: nat, b: nat, fs: nat, ft: nat, resolve: string -> string)
    requires a < |s| && b < |t| && TokenAt(s, a) == Some(fs) && TokenAt(t, b) == Some(ft)
    requires s[a + 2..fs] == t[b + 2..ft]
    requires ReplaceFrom(s, fs + 2, resolve) == ReplaceFrom(t, ft + 2, resolve)
    ensures ReplaceFrom(s, a, resolve) == ReplaceFrom(t, b, resolve)
  {
    ReplaceTokenStep(s, a, fs, resolve);
    ReplaceTokenStep(t, b, ft, resolve);
  }

  lemma SameCopyStep(s: string, t: string, a: nat, b: nat, resolve: string -> string)
    requires a < |s| && b < |t| && TokenAt(s, a).None? && TokenAt(t, b).None? && s[a] == t[b]
    requires ReplaceFrom(s, a + 1, resolve) == ReplaceFrom(t, b + 1, resolve)
    ensures ReplaceFrom(s, a, resolve) == ReplaceFrom(t, b, resolve)
  {
    ReplaceCopyStep(s, a, resolve);
    ReplaceCopyStep(t, b, resolve);
  }

  lemma ReplaceTokenStep(s: string, i: nat, f: nat, resolve: string -> string)
    requires i < |s| && TokenAt(s, i) == Some(f)
    ensures ReplaceFrom(s, i, resolve) == resolve(s[i + 2..f]) + ReplaceFrom(s, f + 2, resolve)
  {
  }

  lemma ReplaceCopyStep(s: string, i: nat, resolve: string -> string)
    requires i < |s| && TokenAt(s, i).None?
    ensures ReplaceFrom(s, i, resolve) == [s[i]] + ReplaceFrom(s, i + 1, resolve)
  {
  }

  lemma {:induction false} CloseBraceShift(s: string, n: nat, t: string, i: nat)
    requires Agrees(s, n, t) && i <= |t|
    ensures CloseBrace(s, n + i) == n + CloseBrace(t, i)
    decreases |t| - i
  {
    if i < |t| {
      assert t[i] == s[n + i];
      if t[i] != '}' {
        CloseBraceShift(s, n, t, i + 1);
      }
    }
  }

  lemma TokenAtShift(s: string, n: nat, t: string, p: nat)
    requires Agrees(s, n, t) && p <= |t|
    ensures TokenAt(t, p).Some? ==> TokenAt(s, n + p) == Some(n + TokenAt(t, p).value)
    ensures TokenAt(t, p).None? ==> TokenAt(s, n + p).None?
    ensures TokenAt(t, p).Some? ==> s[n + p + 2..n + TokenAt(t, p).value] == t[p + 2..TokenAt(t, p).value]
  {
    if p + 1 < |t| {
      assert t[p] == s[n + p];
      assert t[p + 1] == s[n + p + 1];
      CloseBraceShift(s, n, t, p + 2);
      var f := CloseBrace(t, p + 2);
      if f + 1 < |t| {
        assert t[f + 1] == s[n + f + 1];
      }
      if TokenAt(t, p).Some? {
        AgreesSlice(s, n, t, p + 2, f);
      }
    }
  }

  lemma AgreesAppend(a: string, b: string)
    ensures Agrees(a + b, |a|, b)
  {
    forall k | 0 <= k < |b| ensures (a + b)[|a| + k] == b[k] {
    }
  }

  /** Neither `{{` nor a final `{` that could open one with the next character. */
  predicate Plain(a: string)
  {
    (forall i :: 0 <= i < |a| - 1 ==> !(a[i] == '{' && a[i + 1] == '{'))
    && (a == [] || a[|a| - 1] != '{')
  }

  /** Text without `{{` is copied unchanged, whatever follows it. */
  lemma PlainPrefix(a: string, b: string, resolve: string -> string)
    requires Plain(a)
    ensures ReplaceFrom(a + b, 0, resolve) == a + ReplaceFrom(b, 0, resolve)
  {
    var s := a + b;
    forall k | 0 <= k < |a|
      ensures TokenAt(s, k).None?
    {
      PlainNoToken(a, b, k);
    }
    CopiedFrom(s, 0, |a|, resolve);
    assert s[0..|a|] == a;
    AgreesAppend(a, b);
    ReplaceShift(s, |a|, b, 0, resolve);
  }

  /** No match starts inside a plain prefix. */
  lemma PlainNoToken(a: string, b: string, k: nat)
    requires Plain(a) && k < |a|
    ensures TokenAt(a + b, k).None?
  {
    var s := a + b;
    assert s[k] == a[k];
    if k + 1 < |a| {
      assert s[k + 1] == a[k + 1];
    } else {
      assert a[k] != '{';
    }
  }

  /** A text with no `{{` comes out unchanged. */
  lemma PlainUnchanged(a: string, vars: VarMap)
    requires Plain(a)
    ensures Replace(a, vars) == a
  {
    PlainPrefix(a, [], Callback(vars));
    assert a + [] == a;
  }

  /** One token `{{ inner }}` becomes what the callback makes of its inner part, and
      the text after it is rewritten on its own. */
  lemma TokenReplaced(inner: string, post: string, resolve: string -> string)
    requires inner != [] && forall i :: 0 <= i < |inner| ==> inner[i] != '}'
    ensures ReplaceFrom("{{" + inner + "}}" + post, 0, resolve)
            == resolve(inner) + ReplaceFrom(post, 0, resolve)
  {
    var tok := "{{" + inner + "}}";
    var s := tok + post;
    var f := |inner| + 2;
    assert s[0] == '{' && s[1] == '{';
    CloseBraceAt(s, 2, f);
    assert s[f + 1] == '}';
    assert s[2..f] == inner;
    ReplaceTokenStep(s, 0, f, resolve);
    AgreesAppend(tok, post);
    ReplaceShift(s, |tok|, post, 0, resolve);
  }

  lemma {:induction false} CloseBraceAt(s: string, i: nat, j: nat)
    requires i <= j < |s| && s[j] == '}'
    requires forall k :: i <= k < j ==> s[k] != '}'
    ensures CloseBrace(s, i) == j
    decreases j - i
  {
    if i < j {
      CloseBraceAt(s, i + 1, j);
    }
  }

  /** `{{}}` does not match: it stays literal and the text after it is rewritten on
      its own. */
  lemma EmptyBracesKept(post: string, resolve: string -> string)
    ensures ReplaceFrom("{{}}" + post, 0, resolve) == "{{}}" + ReplaceFrom(post, 0, resolve)
  {
    var s := "{{}}" + post;
    assert s[0] == '{' && s[1] == '{' && s[2] == '}' && s[3] == '}';
    assert CloseBrace(s, 2) == 2;
    assert forall k :: 0 <= k < 4 ==> TokenAt(s, k).None?;
    CopiedFrom(s, 0, 4, resolve);
    assert s[0..4] == "{{}}";
    AgreesAppend("{{}}", post);
    ReplaceShift(s, 4, post, 0, resolve);
  }

  /** Where no match starts, characters are copied as they are. */
  lemma {:induction false} CopiedFrom(s: string, i: nat, j: nat, resolve: string -> string)
    requires i <= j <= |s|
    requires forall k :: i <= k < j ==> TokenAt(s, k).None?
    ensures ReplaceFrom(s, i, resolve) == s[i..j] + ReplaceFrom(s, j, resolve)
    decreases j - i
  {
    if i < j {
      ReplaceCopyStep(s, i, resolve);
      CopiedFrom(s, i + 1, j, resolve);
      ConsSlice(s, i, j);
      ConsAppend(s[i], s[i + 1..j], ReplaceFrom(s, j, resolve));
    }
  }

  lemma ConsSlice<T>(s: seq<T>, i: nat, j: nat)
    requires i < j <= |s|
    ensures s[i..j] == [s[i]] + s[i + 1..j]
  {
  }

  lemma ConsAppend<T>(x: T, a: seq<T>, b: seq<T>)
    ensures [x] + (a + b) == ([x] + a) + b
  {
  }

  /** In `processTemplate`, a token becomes the value of its trimmed key, or the empty
      string when no key line gave one. */
  lemma TokenResolved(inner: string, post: string, vars: VarMap)
    requires inner != [] && forall i :: 0 <= i < |inner| ==> inner[i] != '}'
    ensures Replace("{{" + inner + "}}" + post, vars) == Resolve(vars, Trim(inner)) + Replace(post, vars)
    ensures Lookup(vars, Trim(inner)).None? ==> Replace("{{" + inner + "}}" + post, vars) == Replace(post, vars)
  {
    TokenReplaced(inner, post, Callback(vars));
    assert [] + Replace(post, vars) == Replace(post, vars);
  }

  /** Replacement is a single pass: a value that itself reads `{{b}}` is written out as
      it is, and only a second, separate rewrite would expand it. */
  lemma SinglePass()
    ensures var vars := [("a", "{{b}}"), ("b", "x")];
            Replace("{{a}}", vars) == "{{b}}" && Replace(Replace("{{a}}", vars), vars) == "x"
  {
    var vars := [("a", "{{b}}"), ("b", "x")];
    assert IsIdentifier("a") && IsIdentifier("b");
    IdentifierReplaced("a", vars);
    IdentifierReplaced("b", vars);
    assert "{{a}}" == "{{" + "a" + "}}" && "{{b}}" == "{{" + "b" + "}}";
    assert Lookup(vars, "a") == Some("{{b}}");
    assert Lookup(vars, "b") == Some("x");
  }

  /** `{{key}}` for an identifier key becomes the key's value, or the empty string. */
  lemma IdentifierReplaced(key: string, vars: VarMap)
    requires IsIdentifier(key)
    ensures Replace("{{" + key + "}}", vars) == Resolve(vars, key)
  {
    IdentifierToken(key, Callback(vars));
    TrimIdentifier(key);
  }

  // ---------------------------------------------------------------------------
  // Finding: `variables[key]` also reads what every object inherits

  /** `variables[key] || ''` as written: a missing own entry falls through to what the
      object inherits. */
  function ResolveAsWritten(vars: VarMap, key: string): (r: string)
    ensures Lookup(vars, key).Some? ==> r == Resolve(vars, key)
  {
    match Lookup(vars, key)
    case Some(v) => v
    case None =>
      match Inherited(key)
      case Some(t) => t
      case None => []
  }

  /** The callback as written: `(match, key) => variables[key.trim()] || ''`. */
  function CallbackAsWritten(vars: VarMap): string -> string
  {
    k => ResolveKeyAsWritten(vars, k)
  }

  function ResolveKeyAsWritten(vars: VarMap, key: string): string
  {
    ResolveAsWritten(vars, Trim(key))
  }

  /** As written, `{{constructor}}` becomes the source text of `Object` even though no
      key line named it; reading own entries only gives the empty string. */
  lemma ConstructorLeaks(vars: VarMap)
    requires Lookup(vars, "constructor").None?
    ensures ReplaceFrom("{{constructor}}", 0, CallbackAsWritten(vars))
            == "function Object() { [native code] }"
    ensures Replace("{{constructor}}", vars) == []
  {
    var key := "constructor";
    ConstructorKey();
    ConstructorInherited();
    IdentifierToken(key, CallbackAsWritten(vars));
    IdentifierToken(key, Callback(vars));
    TrimIdentifier(key);
  }

  lemma ConstructorKey()
    ensures IsIdentifier("constructor") && "{{" + "constructor" + "}}" == "{{constructor}}"
  {
    var key := "constructor";
    assert key == ['c', 'o', 'n', 's', 't', 'r', 'u', 'c', 't', 'o', 'r'];
  }

  lemma ConstructorInherited()
    ensures Inherited("constructor") == Some("function Object() { [native code] }")
  {
    assert |"constructor"| != |"__proto__"|;
  }

  /** `{{key}}` for an identifier key becomes exactly what the key resolves to. */
  lemma IdentifierToken(key: string, resolve: string -> string)
    requires IsIdentifier(key)
    ensures ReplaceFrom("{{" + key + "}}", 0, resolve) == resolve(key)
  {
    forall i | 0 <= i < |key| ensures key[i] != '}' {
      assert IsWordChar(key[i]);
    }
    TokenReplaced(key, [], resolve);
    assert "{{" + key + "}}" + [] == "{{" + key + "}}";
    assert resolve(key) + [] == resolve(key);
  }

  /** The two readings differ only on names the record lacks and objects inherit. */
  lemma ResolveAgrees(vars: VarMap, key: string)
    requires Inherited(key).None? || Lookup(vars, key).Some?
    ensures ResolveAsWritten(vars, key) == Resolve(vars, key)
  {
  }

  // ---------------------------------------------------------------------------
  // `processTemplate`: the recursive `replacer`, then `JSON.stringify(result, null, 2)`

  /** `replacer(obj)`: string leaves are rewritten, arrays and objects are rebuilt
      member by member, and every other value is returned as it is. */
  function Merge(t: Json, vars: VarMap): Json
    decreases t
  {
    match t
    case JString(s) => JString(Replace(s, vars))
    case JArray(items) =>
      JArray(seq(|items|, i requires 0 <= i < |items| => Merge(items[i], vars)))
    case JObject(fields) =>
      JObject(seq(|fields|, i requires 0 <= i < |fields| => (fields[i].0, Merge(fields[i].1, vars))))
    case _ => t
  }

  /** `processTemplate(templateJson, variables)`. */
  function ProcessTemplate(t: Json, vars: VarMap): string
  {
    Stringify(Merge(t, vars), "")
  }

  /** `b` has the shape of `a`: the same kind of value at every position, arrays of the
      same length, objects with the same keys in the same order, and the same null,
      boolean and number leaves; only string leaves may differ. */
  predicate SameShape(a: Json, b: Json)
    decreases a
  {
    match a
    case JString(_) => b.JString?
    case JArray(xs) =>
      b.JArray? && |xs| == |b.items| && forall i :: 0 <= i < |xs| ==> SameShape(xs[i], b.items[i])
    case JObject(fs) =>
      b.JObject? && |fs| == |b.fields|
      && forall i :: 0 <= i < |fs| ==> fs[i].0 == b.fields[i].0 && SameShape(fs[i].1, b.fields[i].1)
    case _ => a == b
  }

  /** Merging keeps the template's shape: array lengths and order, object keys and their
      order (keys are never rewritten), and every null, boolean and number. */
  lemma {:induction false} MergeKeepsShape(t: Json, vars: VarMap)
    ensures SameShape(t, Merge(t, vars))
    decreases t
  {
    match t
    case JArray(items) =>
      forall i | 0 <= i < |items| ensures SameShape(items[i], Merge(t, vars).items[i]) {
        MergeKeepsShape(items[i], vars);
      }
    case JObject(fields) =>
      forall i | 0 <= i < |fields|
        ensures fields[i].0 == Merge(t, vars).fields[i].0
        ensures SameShape(fields[i].1, Merge(t, vars).fields[i].1)
      {
        MergeKeepsShape(fields[i].1, vars);
      }
    case _ =>
  }

  /** Every string leaf of the tree is free of `{{`. */
  predicate PlainTree(t: Json)
    decreases t
  {
    match t
    case JString(s) => Plain(s)
    case JArray(xs) => forall i :: 0 <= i < |xs| ==> PlainTree(xs[i])
    case JObject(fs) => forall i :: 0 <= i < |fs| ==> PlainTree(fs[i].1)
    case _ => true
  }

  /** A template without placeholders merges to itself, whatever the variables. */
  lemma {:induction false} MergePlain(t: Json, vars: VarMap)
    requires PlainTree(t)
    ensures Merge(t, vars) == t
    decreases t
  {
    match t
    case JString(s) =>
      PlainUnchanged(s, vars);
    case JArray(items) =>
      forall i | 0 <= i < |items| ensures Merge(items[i], vars) == items[i] {
        MergePlain(items[i], vars);
      }
      assert Merge(t, vars).items == items;
    case JObject(fields) =>
      forall i | 0 <= i < |fields| ensures Merge(fields[i].1, vars) == fields[i].1 {
        MergePlain(fields[i].1, vars);
      }
      assert Merge(t, vars).fields == fields;
    case _ =>
  }

  /** A template that is one string is written as one JSON string literal that reads
      back as that string with its placeholders replaced. */
  lemma ProcessStringTemplate(s: string, vars: VarMap)
    ensures var out := ProcessTemplate(JString(s), vars);
            |out| >= 2 && out[0] == '"' && out[|out| - 1] == '"'
            && Unescape(out[1..|out| - 1]) == Some(Replace(s, vars))
  {
    StringLeafReadsBack(Replace(s, vars), "");
  }

  /** A template without placeholders is only re-serialised. */
  lemma ProcessPlainTemplate(t: Json, vars: VarMap)
    requires PlainTree(t)
    ensures ProcessTemplate(t, vars) == Stringify(t, "")
  {
    MergePlain(t, vars);
  }
}
