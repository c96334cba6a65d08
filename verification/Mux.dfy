/** Webview labels for editor surfaces, and the merged server list. */
module Mux {
  import opened Protocol
  import opened Ordering
  import opened Bridge

  type Byte = b: nat | b < 256

  const LABEL_PREFIX := "editor:"

  predicate IsPlain(b: Byte) {
    || '0' as int <= b <= '9' as int
    || 'A' as int <= b <= 'Z' as int
    || 'a' as int <= b <= 'z' as int
    || b == '-' as int || b == '_' as int || b == '.' as int
  }

  function HexDigit(n: nat): char
    requires n < 16
  {
    if n < 10 then ('0' as int + n) as char else ('a' as int + n - 10) as char
  }

  /** The lower-case hexadecimal digits, read back. */
  function HexValue(c: char): Option<nat> {
    if '0' <= c <= '9' then Some(c as int - '0' as int)
    else if 'a' <= c <= 'f' then Some(c as int - 'a' as int + 10)
    else None
  }

  function EncodeByte(b: Byte): string {
    if IsPlain(b) then [b as char] else ['~', HexDigit(b / 16), HexDigit(b % 16)]
  }

  function Encode(bytes: seq<Byte>): string {
    if bytes == [] then [] else Encode(bytes[..|bytes| - 1]) + EncodeByte(bytes[|bytes| - 1])
  }

  method EditorLabelFor(id: seq<Byte>) returns (text: string)
    ensures text == LABEL_PREFIX + Encode(id)
  {
    text := LABEL_PREFIX;
    for i := 0 to |id|
      invariant text == LABEL_PREFIX + Encode(id[..i])
    {
      assert id[..i + 1][..i] == id[..i];
      text := text + EncodeByte(id[i]);
    }
    assert id[..|id|] == id;
  }

  /** An independent reader of the escaped form. */
  function Decode(text: string): Option<seq<Byte>>
    decreases |text|
  {
    if text == [] then Some([])
    else if text[0] == '~' then
      if |text| < 3 then None
      else
        var hi, lo := HexValue(text[1]), HexValue(text[2]);
        if hi.None? || lo.None? then None
        else
          var rest := Decode(text[3..]);
          if rest.None? then None else Some([16 * hi.value + lo.value] + rest.value)
    else if text[0] as int < 256 && IsPlain(text[0] as int) then
      var rest := Decode(text[1..]);
      if rest.None? then None else Some([text[0] as int] + rest.value)
    else None
  }

  lemma DecodesOne(b: Byte, text: string)
    requires Decode(text).Some?
    ensures Decode(EncodeByte(b) + text) == Some([b] + Decode(text).value)
  {
    var e := EncodeByte(b) + text;
    if IsPlain(b) {
      assert e[1..] == text;
    } else {
      assert e[3..] == text;
      assert HexValue(e[1]) == Some(b / 16) && HexValue(e[2]) == Some(b % 16);
    }
  }

  lemma EncodeUnfold(bytes: seq<Byte>)
    ensures bytes == [] ==> Encode(bytes) == []
    ensures bytes != [] ==>
      var n := |bytes| - 1; Encode(bytes) == Encode(bytes[..n]) + EncodeByte(bytes[n])
  {
  }

  lemma {:induction false} DecodesOnto(bytes: seq<Byte>, text: string)
    requires Decode(text).Some?
    ensures Decode(Encode(bytes) + text) == Some(bytes + Decode(text).value)
  {
    hide *;
    EncodeUnfold(bytes);
    if bytes == [] {
      assert Encode(bytes) + text == text;
      assert bytes + Decode(text).value == Decode(text).value;
    } else {
      var init, last := bytes[..|bytes| - 1], bytes[|bytes| - 1];
      DecodesOne(last, text);
      DecodesOnto(init, EncodeByte(last) + text);
      assert Encode(bytes) + text == Encode(init) + (EncodeByte(last) + text);
      assert init + ([last] + Decode(text).value) == bytes + Decode(text).value;
    }
  }

  /** Labels decode: no two server ids share a webview label. */
  lemma LabelsDecode(a: seq<Byte>, b: seq<Byte>)
    ensures Decode(Encode(a)) == Some(a)
    ensures LABEL_PREFIX + Encode(a) == LABEL_PREFIX + Encode(b) ==> a == b
  {
    DecodesOnto(a, []);
    DecodesOnto(b, []);
    assert Encode(a) + [] == Encode(a) && Encode(b) + [] == Encode(b);
    assert a + [] == a && b + [] == b;
    if LABEL_PREFIX + Encode(a) == LABEL_PREFIX + Encode(b) {
      assert (LABEL_PREFIX + Encode(a))[|LABEL_PREFIX|..] == Encode(a);
      assert (LABEL_PREFIX + Encode(b))[|LABEL_PREFIX|..] == Encode(b);
    }
  }

  // --------------------------------------------------------- merged servers

  function FirstWithId(list: seq<ServerRow>, id: Id): Option<ServerRow> {
    if list == [] then None else if list[0].id == id then Some(list[0]) else FirstWithId(list[1..], id)
  }

  lemma {:induction false} FirstWithIdSnoc(list: seq<ServerRow>, row: ServerRow, id: Id)
    ensures FirstWithId(list + [row], id) ==
      if FirstWithId(list, id).Some? then FirstWithId(list, id) else if row.id == id then Some(row) else None
  {
    if list != [] {
      assert (list + [row])[1..] == list[1..] + [row];
      FirstWithIdSnoc(list[1..], row, id);
    }
  }

  /** One row per id, spawned servers first, in id order. */
  method MergedServers(spawned: seq<ServerRow>, registered: seq<ServerRow>) returns (merged: seq<ServerRow>)
    ensures Ascending(merged, RowLess)
    ensures forall r :: r in merged <==> FirstWithId(spawned + registered, r.id) == Some(r)
  {
    var all := spawned + registered;
    var seen: set<Id> := {};
    merged := [];
    RowLessIsStrict();
    for i := 0 to |all|
      invariant Ascending(merged, RowLess)
      invariant forall id :: id in seen <==> FirstWithId(all[..i], id).Some?
      invariant forall r :: r in merged <==> FirstWithId(all[..i], r.id) == Some(r)
    {
      var row := all[i];
      assert all[..i + 1] == all[..i] + [row];
      forall id { FirstWithIdSnoc(all[..i], row, id); }
      if row.id !in seen {
        seen := seen + {row.id};
        forall r | r in merged ensures RowLess(row, r) || RowLess(r, row) {
          TextLessTotal(row.id.text, r.id.text);
        }
        InsertByAscends(row, merged, RowLess);
        InsertByElements(row, merged, RowLess);
        merged := InsertBy(row, merged, RowLess);
      }
    }
    assert all[..|all|] == all;
  }

  lemma {:induction false} SpawnedWins(spawned: seq<ServerRow>, registered: seq<ServerRow>, id: Id)
    ensures FirstWithId(spawned + registered, id) ==
      if FirstWithId(spawned, id).Some? then FirstWithId(spawned, id) else FirstWithId(registered, id)
  {
    if spawned == [] {
      assert spawned + registered == registered;
    } else {
      assert (spawned + registered)[1..] == spawned[1..] + registered;
      SpawnedWins(spawned[1..], registered, id);
    }
  }
}
