/** Folding the inbound header entries into a map from each header name to
    its values in arrival order (`parse_headers`). Header values arrive as
    bytes and are decoded by a lossy UTF-8 decoder that is a parameter here. */
module Headers {
  import opened Types

  /** One inbound header entry: the field name and its raw value bytes. */
  datatype RawHeader = RawHeader(name: string, value: Bytes)

  /** `HashMap<String, Vec<String>>`: every name seen, with its values in order. */
  type HeaderMap = map<string, seq<string>>

  /** The names that occur among `entries`. */
  function Names(entries: seq<RawHeader>): set<string>
  {
    set i | 0 <= i < |entries| :: entries[i].name
  }

  /** Reference view: the decoded values of the entries named `name`, in order. */
  function ValuesOf(entries: seq<RawHeader>, name: string, decode: Bytes -> string): seq<string>
  {
    if |entries| == 0 then []
    else
      (if entries[0].name == name then [decode(entries[0].value)] else [])
      + ValuesOf(entries[1..], name, decode)
  }

  /** Appends `value` to the list kept for `name`, creating an empty list first
      when the name is new (`entry(name).or_default().push(value)`). */
  function Push(m: HeaderMap, name: string, value: string): HeaderMap
  {
    m[name := (if name in m then m[name] else []) + [value]]
  }

  /** The header map after folding `entries` one by one, front to back. */
  function ParseHeaders(entries: seq<RawHeader>, decode: Bytes -> string): (out: HeaderMap)
    ensures out.Keys == Names(entries)
    ensures forall n :: n in out ==> out[n] == ValuesOf(entries, n, decode)
    ensures forall n :: n in out ==> |out[n]| > 0
    decreases |entries|
  {
    if |entries| == 0 then map[]
    else
      var front := entries[..|entries| - 1];
      var last := entries[|entries| - 1];
      assert entries == front + [last];
      var prev := ParseHeaders(front, decode);
      PushStep(front, last, prev, decode);
      Push(prev, last.name, decode(last.value))
  }

  /** One iteration of the fold keeps the map equal to the reference view. */
  lemma PushStep(front: seq<RawHeader>, last: RawHeader, prev: HeaderMap, decode: Bytes -> string)
    requires prev.Keys == Names(front)
    requires forall n :: n in prev ==> prev[n] == ValuesOf(front, n, decode)
    requires forall n :: n in prev ==> |prev[n]| > 0
    ensures Push(prev, last.name, decode(last.value)).Keys == Names(front + [last])
    ensures forall n :: n in Push(prev, last.name, decode(last.value)) ==>
              Push(prev, last.name, decode(last.value))[n] == ValuesOf(front + [last], n, decode)
    ensures forall n :: n in Push(prev, last.name, decode(last.value)) ==>
              |Push(prev, last.name, decode(last.value))[n]| > 0
  {
    var next := Push(prev, last.name, decode(last.value));
    NamesSnoc(front, last);
    forall n | n in next ensures next[n] == ValuesOf(front + [last], n, decode) {
      ValuesOfSnoc(front, last, n, decode);
      if n == last.name && n !in prev {
        ValuesOfAbsent(front, n, decode);
      }
    }
  }

  lemma NamesSnoc(entries: seq<RawHeader>, x: RawHeader)
    ensures Names(entries + [x]) == Names(entries) + {x.name}
  {
    var all := entries + [x];
    forall n | n in Names(all) ensures n in Names(entries) + {x.name} {
      var i :| 0 <= i < |all| && all[i].name == n;
      if i < |entries| { assert entries[i].name == n; }
    }
    forall n | n in Names(entries) + {x.name} ensures n in Names(all) {
      if n == x.name {
        assert all[|entries|].name == n;
      } else {
        var i :| 0 <= i < |entries| && entries[i].name == n;
        assert all[i].name == n;
      }
    }
  }

  /** A name that never occurs has no values. */
  lemma {:induction false} ValuesOfAbsent(entries: seq<RawHeader>, name: string, decode: Bytes -> string)
    requires name !in Names(entries)
    ensures ValuesOf(entries, name, decode) == []
    decreases |entries|
  {
    if |entries| > 0 {
      assert entries[0].name != name;
      assert Names(entries[1..]) <= Names(entries) by {
        forall n | n in Names(entries[1..]) ensures n in Names(entries) {
          var i :| 0 <= i < |entries[1..]| && entries[1..][i].name == n;
          assert entries[i + 1].name == n;
        }
      }
      ValuesOfAbsent(entries[1..], name, decode);
    }
  }

  /** The reference view grows at the back when an entry is appended. */
  lemma {:induction false} ValuesOfSnoc(entries: seq<RawHeader>, x: RawHeader, name: string, decode: Bytes -> string)
    ensures ValuesOf(entries + [x], name, decode)
         == ValuesOf(entries, name, decode) + (if x.name == name then [decode(x.value)] else [])
    decreases |entries|
  {
    var tail := if x.name == name then [decode(x.value)] else [];
    if |entries| == 0 {
      assert entries + [x] == [x];
      assert [x][1..] == [];
      assert ValuesOf([x], name, decode) == tail + ValuesOf([], name, decode);
    } else {
      var head := if entries[0].name == name then [decode(entries[0].value)] else [];
      assert (entries + [x])[0] == entries[0];
      assert (entries + [x])[1..] == entries[1..] + [x];
      ValuesOfSnoc(entries[1..], x, name, decode);
      calc {
        ValuesOf(entries + [x], name, decode);
        head + ValuesOf(entries[1..] + [x], name, decode);
        head + (ValuesOf(entries[1..], name, decode) + tail);
        (head + ValuesOf(entries[1..], name, decode)) + tail;
        ValuesOf(entries, name, decode) + tail;
      }
    }
  }

  /** How many entries carry `name`. */
  function Occurrences(entries: seq<RawHeader>, name: string): nat
  {
    if |entries| == 0 then 0
    else (if entries[0].name == name then 1 else 0) + Occurrences(entries[1..], name)
  }

  /** One value per occurrence: no value of a repeated header is dropped. */
  lemma {:induction false} ValuesOfLength(entries: seq<RawHeader>, name: string, decode: Bytes -> string)
    ensures |ValuesOf(entries, name, decode)| == Occurrences(entries, name)
    decreases |entries|
  {
    if |entries| > 0 {
      ValuesOfLength(entries[1..], name, decode);
    }
  }

  /** A name occurs at least once exactly when it is among the names. */
  lemma {:induction false} OccurrencesNames(entries: seq<RawHeader>, name: string)
    ensures Occurrences(entries, name) > 0 <==> name in Names(entries)
    decreases |entries|
  {
    if |entries| > 0 {
      OccurrencesNames(entries[1..], name);
      assert Names(entries) == {entries[0].name} + Names(entries[1..]) by {
        forall n | n in Names(entries) ensures n in {entries[0].name} + Names(entries[1..]) {
          var i :| 0 <= i < |entries| && entries[i].name == n;
          if i > 0 { assert entries[1..][i - 1].name == n; }
        }
        forall n | n in Names(entries[1..]) ensures n in Names(entries) {
          var i :| 0 <= i < |entries[1..]| && entries[1..][i].name == n;
          assert entries[i + 1].name == n;
        }
      }
    }
  }

  lemma {:induction false} OccurrencesPositive(entries: seq<RawHeader>, i: nat)
    requires i < |entries|
    ensures Occurrences(entries, entries[i].name) > 0
    decreases |entries|
  {
    if i > 0 {
      assert entries[1..][i - 1] == entries[i];
      OccurrencesPositive(entries[1..], i - 1);
    }
  }

  /** A name that occurs once contributes exactly the decoding of that entry. */
  lemma {:induction false} ValuesOfSingle(entries: seq<RawHeader>, i: nat, decode: Bytes -> string)
    requires i < |entries|
    requires Occurrences(entries, entries[i].name) == 1
    ensures ValuesOf(entries, entries[i].name, decode) == [decode(entries[i].value)]
    decreases |entries|
  {
    var name := entries[i].name;
    if i == 0 {
      ValuesOfLength(entries[1..], name, decode);
    } else {
      assert entries[1..][i - 1] == entries[i];
      OccurrencesPositive(entries[1..], i - 1);
      ValuesOfSingle(entries[1..], i - 1, decode);
    }
  }

  /** Sum of the lengths of the value lists kept under `keys`. */
  ghost function SumLengths(m: HeaderMap, keys: set<string>): nat
    requires keys <= m.Keys
    decreases keys
  {
    if keys == {} then 0
    else
      var k :| k in keys;
      |m[k]| + SumLengths(m, keys - {k})
  }

  /** Total number of values held by a header map. */
  ghost function TotalValues(m: HeaderMap): nat
  {
    SumLengths(m, m.Keys)
  }

  /** The sum may be split at any key, not just the one `SumLengths` picks. */
  lemma {:induction false} SumLengthsRemove(m: HeaderMap, keys: set<string>, k: string)
    requires keys <= m.Keys && k in keys
    ensures SumLengths(m, keys) == |m[k]| + SumLengths(m, keys - {k})
    decreases keys
  {
    var j :| j in keys && SumLengths(m, keys) == |m[j]| + SumLengths(m, keys - {j});
    if j != k {
      SumLengthsRemove(m, keys - {j}, k);
      SumLengthsRemove(m, keys - {k}, j);
      assert keys - {j} - {k} == keys - {k} - {j};
    }
  }

  /** Lists outside `keys` do not enter the sum. */
  lemma {:induction false} SumLengthsFrame(m: HeaderMap, m': HeaderMap, keys: set<string>)
    requires keys <= m.Keys && keys <= m'.Keys
    requires forall k :: k in keys ==> |m[k]| == |m'[k]|
    ensures SumLengths(m, keys) == SumLengths(m', keys)
    decreases keys
  {
    if keys != {} {
      var k :| k in keys;
      SumLengthsRemove(m, keys, k);
      SumLengthsRemove(m', keys, k);
      SumLengthsFrame(m, m', keys - {k});
    }
  }

  /** Pushing one value adds exactly one to the total. */
  lemma TotalValuesPush(m: HeaderMap, name: string, value: string)
    ensures TotalValues(Push(m, name, value)) == TotalValues(m) + 1
  {
    var m' := Push(m, name, value);
    SumLengthsRemove(m', m'.Keys, name);
    if name in m {
      SumLengthsRemove(m, m.Keys, name);
      assert m'.Keys - {name} == m.Keys - {name};
      SumLengthsFrame(m, m', m.Keys - {name});
    } else {
      assert m'.Keys - {name} == m.Keys;
      SumLengthsFrame(m, m', m.Keys);
    }
  }

  /** The value lists together hold exactly one value per header entry. */
  lemma {:induction false} ParseHeadersKeepsEveryValue(entries: seq<RawHeader>, decode: Bytes -> string)
    ensures TotalValues(ParseHeaders(entries, decode)) == |entries|
    decreases |entries|
  {
    if |entries| == 0 {
      assert ParseHeaders(entries, decode) == map[];
    } else {
      var front := entries[..|entries| - 1];
      var last := entries[|entries| - 1];
      ParseHeadersKeepsEveryValue(front, decode);
      TotalValuesPush(ParseHeaders(front, decode), last.name, decode(last.value));
    }
  }
}
