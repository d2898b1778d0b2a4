/** The two textual encodings kept in stores: a score set's case list, and an entry of the judge queue. */
module Codecs {
  import opened Decimal

  // ---------------------------------------------------------------- case list of a score set

  function ParseAll(parts: seq<string>): (r: seq<int>) {
    seq(|parts|, i requires 0 <= i < |parts| => ParseInt(parts[i]))
  }

  function FormatAll(a: seq<int>): (r: seq<string>) {
    seq(|a|, i requires 0 <= i < |a| => FormatInt(a[i]))
  }

  function Decode(text: string): seq<int> {
    ParseAll(Split(text, ','))
  }

  function Encode(a: seq<int>): string {
    Join(FormatAll(a), ',')
  }

  predicate AllInt64(a: seq<int>) {
    forall i :: 0 <= i < |a| ==> MIN_INT64 <= a[i] <= MAX_INT64
  }

  /** A list comes back from its text unless it is empty: the empty list comes back as [0]. */
  lemma DecodeEncode(a: seq<int>)
    requires AllInt64(a)
    ensures Decode(Encode(a)) == a <==> a != []
    ensures a == [] ==> Decode(Encode(a)) == [0]
  {
    forall i | 0 <= i < |a| ensures ',' !in FormatAll(a)[i] {
      NoSeparator(a[i], ',');
    }
    SplitJoin(FormatAll(a), ',');
    forall i | 0 <= i < |a| ensures ParseInt(FormatAll(a)[i]) == a[i] {
      ParseFormat(a[i]);
    }
    if a != [] {
      assert Decode(Encode(a)) == a;
    } else {
      assert ParseInt([]) == 0;
      assert Decode(Encode(a)) == [0];
    }
  }

  /** The text of a list: its numbers with commas between them. */
  lemma EncodeExact(x: int, rest: seq<int>)
    ensures Encode([]) == "" && Encode([x]) == FormatInt(x)
    ensures rest != [] ==> Encode([x] + rest) == FormatInt(x) + "," + Encode(rest)
  {
    assert FormatAll([x] + rest)[1..] == FormatAll(rest);
  }

  /** The numbers read from a text are as many as its commas and one more; text without a comma is one number. */
  lemma DecodeExact(first: string, text: string)
    requires ',' !in first
    ensures |Decode(text)| == multiset(text)[','] + 1
    ensures Decode(first) == [ParseInt(first)] && Decode(first + [','] + text) == [ParseInt(first)] + Decode(text)
  {
    SplitCount(text, ',');
    SplitPart(first, ',');
    SplitFirst(first, text, ',');
  }

  class ScoreSetCases {
    var text: string

    constructor (text: string)
      ensures this.text == text
    {
      this.text := text;
    }

    method Get() returns (ret: seq<int>)
      ensures ret == Decode(text)
    {
      var arr := Split(text, ',');
      var buffer := new int[|arr|];
      for i := 0 to |arr|
        invariant forall j :: 0 <= j < i ==> buffer[j] == ParseInt(arr[j])
      {
        buffer[i] := ParseInt(arr[i]);
      }
      ret := buffer[..];
    }

    method Set(a: seq<int>)
      modifies this
      ensures text == Encode(a)
    {
      var arr := [];
      for i := 0 to |a|
        invariant |arr| == i && forall j :: 0 <= j < i ==> arr[j] == FormatInt(a[j])
      {
        arr := arr + [FormatInt(a[i])];
      }
      assert arr == FormatAll(a);
      text := Join(arr, ',');
    }
  }

  // ---------------------------------------------------------------- judge queue

  datatype Entry = Entry(cid: int, sid: int)

  function ParseEntry(query: string): Entry {
    var arr := Split(query, ':');
    if |arr| != 2 then Entry(-1, -1) else Entry(ParseInt(arr[0]), ParseInt(arr[1]))
  }

  function FormatEntry(e: Entry): string {
    FormatInt(e.cid) + [':'] + FormatInt(e.sid)
  }

  predicate EntryInt64(e: Entry) {
    MIN_INT64 <= e.cid <= MAX_INT64 && MIN_INT64 <= e.sid <= MAX_INT64
  }

  lemma ParseFormatEntry(e: Entry)
    requires EntryInt64(e)
    ensures ParseEntry(FormatEntry(e)) == e
  {
    NoSeparator(e.cid, ':');
    NoSeparator(e.sid, ':');
    SplitFirst(FormatInt(e.cid), FormatInt(e.sid), ':');
    SplitPart(FormatInt(e.sid), ':');
    ParseFormat(e.cid);
    ParseFormat(e.sid);
  }

  /** A text that is not two parts with a colon between them reads as -1 and -1. */
  lemma ParseEntryExact(query: string, cid: string, sid: string)
    requires ':' !in cid && ':' !in sid
    ensures multiset(query)[':'] != 1 ==> ParseEntry(query) == Entry(-1, -1)
    ensures ParseEntry(cid + ":" + sid) == Entry(ParseInt(cid), ParseInt(sid))
  {
    SplitCount(query, ':');
    SplitFirst(cid, sid, ':');
    SplitPart(sid, ':');
  }

  /** The entries a queue still holds, oldest first. */
  function Waiting(items: seq<string>): seq<Entry> {
    if items == [] then [] else Waiting(items[1..]) + [ParseEntry(items[0])]
  }

  /** Without both ends, from either side. */
  lemma {:induction false} Middle(items: seq<string>)
    requires |items| > 1
    ensures items[1..][..|items| - 2] == items[..|items| - 1][1..]
  {
    assert items[1..][..|items| - 2] == items[1..|items| - 1];
    assert items[..|items| - 1][1..] == items[1..|items| - 1];
  }

  lemma {:induction false} WaitingDropLast(items: seq<string>)
    requires items != []
    ensures Waiting(items) == [ParseEntry(items[|items| - 1])] + Waiting(items[..|items| - 1])
    decreases |items|
  {
    if |items| > 1 {
      WaitingDropLast(items[1..]);
      Middle(items);
    }
  }

  /**
   * The list the dispatchers share: pushed on the left, popped on the right. Over its whole life what was
   * popped, followed by what waits, is what was pushed: first in, first out, each entry once.
   */
  class JudgeQueue {
    var items: seq<string>
    ghost var pushed: seq<Entry>
    ghost var popped: seq<Entry>

    ghost predicate Valid()
      reads this
    {
      popped + Waiting(items) == pushed
    }

    constructor ()
      ensures Valid() && pushed == popped == []
    {
      items, pushed, popped := [], [], [];
    }

    method Push(cid: int, sid: int)
      requires Valid() && EntryInt64(Entry(cid, sid))
      modifies this
      ensures Valid() && pushed == old(pushed) + [Entry(cid, sid)] && popped == old(popped)
      ensures items == [FormatInt(cid) + ":" + FormatInt(sid)] + old(items)
    {
      ParseFormatEntry(Entry(cid, sid));
      items := [FormatEntry(Entry(cid, sid))] + items;
      pushed := pushed + [Entry(cid, sid)];
      assert items[1..] == old(items);
    }

    method Pop() returns (e: Entry)
      requires Valid() && items != []
      modifies this
      ensures Valid() && pushed == old(pushed) && popped == old(popped) + [e]
      ensures |popped| <= |pushed| && e == pushed[|old(popped)|]
      ensures items == old(items)[..|old(items)| - 1]
    {
      WaitingDropLast(items);
      e := ParseEntry(items[|items| - 1]);
      items := items[..|items| - 1];
      popped := popped + [e];
    }
  }
}
