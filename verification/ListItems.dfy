// What it is to be an item of a list in text: a stretch without separators that stands
// between two of them, or at an end.
module ListItems {
  import opened Bytes
  import opened Headers

  ghost predicate ItemBetween<T>(s: seq<T>, separator: T, before: seq<T>, item: seq<T>, after: seq<T>) {
    s == before + (item + after) && separator !in item
    && (before == [] || before[|before| - 1] == separator)
    && (after == [] || after[0] == separator)
  }

  ghost predicate IsItem<T(!new)>(s: seq<T>, separator: T, item: seq<T>) {
    exists before, after :: ItemBetween(s, separator, before, item, after)
  }

  // An item of the value of some field with this name.
  ghost predicate FieldItem(fs: Fields, name: bytes, item: bytes) {
    exists i :: 0 <= i < |fs| && SameName(fs[i].name, name) && IsItem(fs[i].value, COMMA, item)
  }

  // A core with white space around it and none at its ends.
  ghost predicate Padded(s: bytes, core: bytes) {
    StartsClean(core) && EndsClean(core)
    && exists before, after :: s == before + (core + after) && AllOws(before) && AllOws(after)
  }

  lemma PaddedIsTrimmed(s: bytes, core: bytes)
    ensures Padded(s, core) <==> TrimOws(s) == core
  {
    hide TrimOws;
    if Padded(s, core) {
      var before, after :| s == before + (core + after) && AllOws(before) && AllOws(after);
      TrimOwsOf(before, core, after);
    }
    var before, after := TrimOwsMeaning(s);
    assert s == before + (TrimOws(s) + after);
  }

  lemma {:induction false} SplitIsItem(s: bytes, separator: byte, item: bytes)
    requires item in SplitOn(s, separator)
    ensures IsItem(s, separator, item)
    decreases |s|
  {
    hide FindByte;
    match FindByte(s, separator)
    case None =>
      assert s == [] + (item + []);
      assert ItemBetween(s, separator, [], item, []);
    case Some(i) =>
      if item == s[..i] {
        assert s == [] + (item + s[i..]);
        assert ItemBetween(s, separator, [], item, s[i..]);
      } else {
        SplitIsItem(s[i + 1..], separator, item);
        var before, after :| ItemBetween(s[i + 1..], separator, before, item, after);
        assert s == (s[..i + 1] + before) + (item + after);
        assert ItemBetween(s, separator, s[..i + 1] + before, item, after);
      }
  }

  lemma {:induction false} ItemIsSplit(s: bytes, separator: byte, before: bytes, item: bytes, after: bytes)
    requires ItemBetween(s, separator, before, item, after)
    ensures item in SplitOn(s, separator)
    decreases |s|
  {
    hide FindByte;
    if before == [] {
      assert s == item + after;
      if after == [] {
        assert s == item;
      } else {
        FirstByte(s, separator, |item|);
        assert s[..|item|] == item;
      }
    } else {
      assert s[|before| - 1] == separator;
      var i := FindByte(s, separator).value;
      var b := before[i + 1..];
      assert s[i + 1..] == b + (item + after);
      ItemIsSplit(s[i + 1..], separator, b, item, after);
    }
  }

  lemma SplitOnMeaning(s: bytes, separator: byte, item: bytes)
    ensures item in SplitOn(s, separator) <==> IsItem(s, separator, item)
  {
    hide SplitOn;
    if item in SplitOn(s, separator) {
      SplitIsItem(s, separator, item);
    }
    if IsItem(s, separator, item) {
      var before, after :| ItemBetween(s, separator, before, item, after);
      ItemIsSplit(s, separator, before, item, after);
    }
  }
}
