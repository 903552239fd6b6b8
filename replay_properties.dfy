/** What replay prints: the counter as it is stored, then one line per position
    both history lists have, and nothing at all (an AttributeError) when the
    method has no counter. */
module ReplayProperties {
  import opened Results
  import opened Utf8
  import Decimal
  import KeyValue
  import opened Exercise
  import opened CacheProperties
  import PyRepr

  /** Decoding a list of encodings gives back the texts, in order. */
  lemma {:induction false} DecodeAllEncodings(items: seq<Bytes>, texts: seq<string>)
    requires |items| == |texts|
    requires forall i :: 0 <= i < |items| ==> items[i] == Encode(texts[i])
    ensures DecodeAll(items) == Ok(texts)
  {
    if items != [] {
      DecodeEncode(texts[0]);
      DecodeAllEncodings(items[1..], texts[1..]);
      assert texts == [texts[0]] + texts[1..];
    }
  }

  /** Without a counter under the method's name replay fails before printing. */
  lemma ReplayWithoutCounter(db: KeyValue.Db, name: string)
    ensures KeyValue.Get(db, name) == Ok(None) ==> Replay(db, name) == Err(AttributeError)
    ensures KeyValue.Get(db, name).Err? ==> Replay(db, name) == Err(KeyValue.Get(db, name).error)
  {
  }

  /** With a counter holding the text `calls` and two lists that decode to
      `ins` and `outs`, replay prints the header with `calls` verbatim, then
      as many lines as the shorter list has, line i pairing ins[i] with
      outs[i]. */
  lemma ReplayPairsPositions(db: KeyValue.Db, name: string, calls: string,
                             inputs: seq<Bytes>, ins: seq<string>, outputs: seq<Bytes>, outs: seq<string>)
    requires KeyValue.Get(db, name) == Ok(Some(Encode(calls)))
    requires KeyValue.LRange(db, InputsKey(name), 0, -1) == Ok(inputs) && DecodeAll(inputs) == Ok(ins)
    requires KeyValue.LRange(db, OutputsKey(name), 0, -1) == Ok(outputs) && DecodeAll(outputs) == Ok(outs)
    ensures Replay(db, name).Ok?
    ensures var lines := Replay(db, name).value;
      && |lines| == 1 + (if |ins| < |outs| then |ins| else |outs|)
      && lines[0] == Header(name, calls)
      && forall i :: 0 <= i < |lines| - 1 ==> lines[1 + i] == CallLine(name, ins[i], outs[i])
  {
    var zipped := ZipLines(name, ins, outs);
    assert Replay(db, name) == Ok([Header(name, calls)] + zipped) by {
      DecodeEncode(calls);
    }
    var lines := [Header(name, calls)] + zipped;
    assert forall i :: 0 <= i < |zipped| ==> lines[1 + i] == zipped[i];
  }

  /** The texts str(args) of the calls, in call order. */
  function ArgsTexts(datas: seq<Payload>): (r: seq<string>)
    ensures |r| == |datas|
    ensures forall i :: 0 <= i < |datas| ==> r[i] == ArgsText(datas[i])
  {
    if datas == [] then [] else [ArgsText(datas[0])] + ArgsTexts(datas[1..])
  }

  /** After N store calls on a fresh cache, replay of store prints
      "Cache.store was called N times:" and then line i pairing the arguments
      of call i with the key call i returned; with no call at all it fails. */
  lemma ReplayAfterStores(db: KeyValue.Db, datas: seq<Payload>, uuids: seq<KeyValue.Key>)
    requires db.entries == map[]
    requires |datas| == |uuids| <= Decimal.MaxInt64 && AllUuids(uuids)
    ensures datas == [] ==> Replay(StoreAll(db, datas, uuids).1, StoreName) == Err(AttributeError)
    ensures datas != [] ==>
      var r := Replay(StoreAll(db, datas, uuids).1, StoreName);
      && r.Ok?
      && |r.value| == 1 + |datas|
      && r.value[0] == Header(StoreName, Decimal.Show(|datas|))
      && forall i :: 0 <= i < |datas| ==> r.value[1 + i] == CallLine(StoreName, ArgsText(datas[i]), uuids[i])
  {
    CountsMatchHistories(db, datas, uuids);
    var after := StoreAll(db, datas, uuids).1;
    if datas != [] {
      Decimal.FormatIsShow(|datas|);
      DecodeAllEncodings(InputsOf(datas), ArgsTexts(datas));
      DecodeAllEncodings(OutputsOf(uuids), uuids);
      ReplayPairsPositions(after, StoreName, Decimal.Show(|datas|),
        InputsOf(datas), ArgsTexts(datas), OutputsOf(uuids), uuids);
    }
  }

  /** str(args) of a one-letter text: the letter in single quotes, in a tuple. */
  lemma ArgsTextOfLetter(c: char)
    requires 'a' <= c <= 'z'
    ensures ArgsText(Text([c])) == ['(', '\'', c, '\'', ',', ')']
  {
    assert PyRepr.CharsRepr([c], '\'') == [c] by {
      assert PyRepr.CharRepr(c, '\'') == [c];
      assert [c][1..] == [];
    }
    assert PyRepr.StrRepr([c]) == ['\'', c, '\''];
  }

  /** Example: store("a") then store("b") on a fresh cache, and
      replay prints the count 2 and the two calls in order. */
  lemma ReplayTwoStores(db: KeyValue.Db, datas: seq<Payload>, uuids: seq<KeyValue.Key>)
    requires db.entries == map[]
    requires datas == [Text("a"), Text("b")]
    requires |uuids| == 2 && IsUuid4Text(uuids[0]) && IsUuid4Text(uuids[1])
    ensures Replay(StoreAll(db, datas, uuids).1, StoreName) == Ok([
      Header(StoreName, "2"),
      CallLine(StoreName, "('a',)", uuids[0]),
      CallLine(StoreName, "('b',)", uuids[1])])
  {
    var r := Replay(StoreAll(db, datas, uuids).1, StoreName);
    assert r.Ok? && |r.value| == 3 && r.value[0] == Header(StoreName, Decimal.Show(2))
      && r.value[1] == CallLine(StoreName, ArgsText(datas[0]), uuids[0])
      && r.value[2] == CallLine(StoreName, ArgsText(datas[1]), uuids[1]) by {
      ReplayAfterStores(db, datas, uuids);
    }
    assert Decimal.Show(2) == "2";
    ArgsTextOfLetter('a');
    ArgsTextOfLetter('b');
    ThreeLines(r.value);
  }

  /** A three-line output as a display, proved apart from the replay above. */
  lemma ThreeLines(lines: seq<string>)
    requires |lines| == 3
    ensures lines == [lines[0], lines[1], lines[2]]
  {
  }
}
