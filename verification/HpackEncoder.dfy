/** The HPACK encoder as it keeps its tables: entries numbered from a tail to a head, looked up by
    key, renumbered when too many numbers have been used up. */
module HpackEncoder {
  import opened BitStrings
  import opened HpackWire
  import opened HpackTable

  // ------------------------------------------------------------ the static table

  datatype Row = Row(name: string, value: Option<string>)

  function Rows0(): seq<Row> {
    [Row(":authority", None),
     Row(":method", Some("GET")),
     Row(":method", Some("POST")),
     Row(":path", Some("/")),
     Row(":path", Some("/index.html")),
     Row(":scheme", Some("http"))]
  }

  function Rows1(): seq<Row> {
    [Row(":scheme", Some("https")),
     Row(":status", Some("200")),
     Row(":status", Some("204")),
     Row(":status", Some("206")),
     Row(":status", Some("304")),
     Row(":status", Some("400"))]
  }

  function Rows2(): seq<Row> {
    [Row(":status", Some("404")),
     Row(":status", Some("500")),
     Row("accept-charset", None),
     Row("accept-encoding", Some("gzip, deflate")),
     Row("accept-language", None),
     Row("accept-ranges", None)]
  }

  function Rows3(): seq<Row> {
    [Row("accept", None),
     Row("access-control-" + "allow-origin", None),
     Row("age", None),
     Row("allow", None),
     Row("authorization", None),
     Row("cache-control", None)]
  }

  function Rows4(): seq<Row> {
    [Row("content-" + "disposition", None),
     Row("content-" + "encoding", None),
     Row("content-" + "language", None),
     Row("content-length", None),
     Row("content-" + "location", None),
     Row("content-range", None)]
  }

  function Rows5(): seq<Row> {
    [Row("content-type", None),
     Row("cookie", None),
     Row("date", None),
     Row("etag", None),
     Row("expect", None),
     Row("expires", None)]
  }

  function Rows6(): seq<Row> {
    [Row("from", None),
     Row("host", None),
     Row("if-match", None),
     Row("if-modified-" + "since", None),
     Row("if-none-match", None),
     Row("if-range", None)]
  }

  function Rows7(): seq<Row> {
    [Row("if-unmodified-" + "since", None),
     Row("last-modified", None),
     Row("link", None),
     Row("location", None),
     Row("max-forwards", None),
     Row("proxy-" + "authenticate", None)]
  }

  function Rows8(): seq<Row> {
    [Row("proxy-" + "authorization", None),
     Row("range", None),
     Row("referer", None),
     Row("refresh", None),
     Row("retry-after", None),
     Row("server", None)]
  }

  function Rows9(): seq<Row> {
    [Row("set-cookie", None),
     Row("strict-transport-" + "security", None),
     Row("transfer-" + "encoding", None),
     Row("user-agent", None),
     Row("vary", None),
     Row("via", None)]
  }

  function Rows10(): seq<Row> {
    [Row("www-" + "authenticate", None)]
  }

  function Rows(): (r: seq<Row>)
    ensures |r| == STATIC_SIZE
  {
    Rows0() + Rows1() + Rows2() + Rows3() + Rows4() + Rows5()
    + Rows6() + Rows7() + Rows8() + Rows9() + Rows10()
  }

  /** The static table of a decoder, by number: appendix A of RFC 7541. */
  function AppendixA(id: nat): Row {
    if id == 1 then Row(":authority", None)
    else if id == 2 then Row(":method", Some("GET"))
    else if id == 3 then Row(":method", Some("POST"))
    else if id == 4 then Row(":path", Some("/"))
    else if id == 5 then Row(":path", Some("/index.html"))
    else if id == 6 then Row(":scheme", Some("http"))
    else if id == 7 then Row(":scheme", Some("https"))
    else if id == 8 then Row(":status", Some("200"))
    else if id == 9 then Row(":status", Some("204"))
    else if id == 10 then Row(":status", Some("206"))
    else if id == 11 then Row(":status", Some("304"))
    else if id == 12 then Row(":status", Some("400"))
    else if id == 13 then Row(":status", Some("404"))
    else if id == 14 then Row(":status", Some("500"))
    else if id == 15 then Row("accept-charset", None)
    else if id == 16 then Row("accept-encoding", Some("gzip, deflate"))
    else if id == 17 then Row("accept-language", None)
    else if id == 18 then Row("accept-ranges", None)
    else if id == 19 then Row("accept", None)
    else if id == 20 then Row("access-control-" + "allow-origin", None)
    else if id == 21 then Row("age", None)
    else if id == 22 then Row("allow", None)
    else if id == 23 then Row("authorization", None)
    else if id == 24 then Row("cache-control", None)
    else if id == 25 then Row("content-" + "disposition", None)
    else if id == 26 then Row("content-" + "encoding", None)
    else if id == 27 then Row("content-" + "language", None)
    else if id == 28 then Row("content-length", None)
    else if id == 29 then Row("content-" + "location", None)
    else if id == 30 then Row("content-range", None)
    else if id == 31 then Row("content-type", None)
    else if id == 32 then Row("cookie", None)
    else if id == 33 then Row("date", None)
    else if id == 34 then Row("etag", None)
    else if id == 35 then Row("expect", None)
    else if id == 36 then Row("expires", None)
    else if id == 37 then Row("from", None)
    else if id == 38 then Row("host", None)
    else if id == 39 then Row("if-match", None)
    else if id == 40 then Row("if-modified-" + "since", None)
    else if id == 41 then Row("if-none-match", None)
    else if id == 42 then Row("if-range", None)
    else if id == 43 then Row("if-unmodified-" + "since", None)
    else if id == 44 then Row("last-modified", None)
    else if id == 45 then Row("link", None)
    else if id == 46 then Row("location", None)
    else if id == 47 then Row("max-forwards", None)
    else if id == 48 then Row("proxy-" + "authenticate", None)
    else if id == 49 then Row("proxy-" + "authorization", None)
    else if id == 50 then Row("range", None)
    else if id == 51 then Row("referer", None)
    else if id == 52 then Row("refresh", None)
    else if id == 53 then Row("retry-after", None)
    else if id == 54 then Row("server", None)
    else if id == 55 then Row("set-cookie", None)
    else if id == 56 then Row("strict-transport-" + "security", None)
    else if id == 57 then Row("transfer-" + "encoding", None)
    else if id == 58 then Row("user-agent", None)
    else if id == 59 then Row("vary", None)
    else if id == 60 then Row("via", None)
    else Row("www-" + "authenticate", None)
  }

  lemma Appendix0()
    ensures forall j :: 0 <= j < 6 ==> Rows0()[j] == AppendixA(1 + j)
  {
    assert Rows0()[0] == AppendixA(1);
    assert Rows0()[1] == AppendixA(2);
    assert Rows0()[2] == AppendixA(3);
    assert Rows0()[3] == AppendixA(4);
    assert Rows0()[4] == AppendixA(5);
    assert Rows0()[5] == AppendixA(6);
  }

  lemma Appendix1()
    ensures forall j :: 0 <= j < 6 ==> Rows1()[j] == AppendixA(7 + j)
  {
    assert Rows1()[0] == AppendixA(7);
    assert Rows1()[1] == AppendixA(8);
    assert Rows1()[2] == AppendixA(9);
    assert Rows1()[3] == AppendixA(10);
    assert Rows1()[4] == AppendixA(11);
    assert Rows1()[5] == AppendixA(12);
  }

  lemma Appendix2()
    ensures forall j :: 0 <= j < 6 ==> Rows2()[j] == AppendixA(13 + j)
  {
    assert Rows2()[0] == AppendixA(13);
    assert Rows2()[1] == AppendixA(14);
    assert Rows2()[2] == AppendixA(15);
    assert Rows2()[3] == AppendixA(16);
    assert Rows2()[4] == AppendixA(17);
    assert Rows2()[5] == AppendixA(18);
  }

  lemma Appendix3()
    ensures forall j :: 0 <= j < 6 ==> Rows3()[j] == AppendixA(19 + j)
  {
    assert Rows3()[0] == AppendixA(19);
    assert Rows3()[1] == AppendixA(20);
    assert Rows3()[2] == AppendixA(21);
    assert Rows3()[3] == AppendixA(22);
    assert Rows3()[4] == AppendixA(23);
    assert Rows3()[5] == AppendixA(24);
  }

  lemma Appendix4()
    ensures forall j :: 0 <= j < 6 ==> Rows4()[j] == AppendixA(25 + j)
  {
    assert Rows4()[0] == AppendixA(25);
    assert Rows4()[1] == AppendixA(26);
    assert Rows4()[2] == AppendixA(27);
    assert Rows4()[3] == AppendixA(28);
    assert Rows4()[4] == AppendixA(29);
    assert Rows4()[5] == AppendixA(30);
  }

  lemma Appendix5()
    ensures forall j :: 0 <= j < 6 ==> Rows5()[j] == AppendixA(31 + j)
  {
    assert Rows5()[0] == AppendixA(31);
    assert Rows5()[1] == AppendixA(32);
    assert Rows5()[2] == AppendixA(33);
    assert Rows5()[3] == AppendixA(34);
    assert Rows5()[4] == AppendixA(35);
    assert Rows5()[5] == AppendixA(36);
  }

  lemma Appendix6()
    ensures forall j :: 0 <= j < 6 ==> Rows6()[j] == AppendixA(37 + j)
  {
    assert Rows6()[0] == AppendixA(37);
    assert Rows6()[1] == AppendixA(38);
    assert Rows6()[2] == AppendixA(39);
    assert Rows6()[3] == AppendixA(40);
    assert Rows6()[4] == AppendixA(41);
    assert Rows6()[5] == AppendixA(42);
  }

  lemma Appendix7()
    ensures forall j :: 0 <= j < 6 ==> Rows7()[j] == AppendixA(43 + j)
  {
    assert Rows7()[0] == AppendixA(43);
    assert Rows7()[1] == AppendixA(44);
    assert Rows7()[2] == AppendixA(45);
    assert Rows7()[3] == AppendixA(46);
    assert Rows7()[4] == AppendixA(47);
    assert Rows7()[5] == AppendixA(48);
  }

  lemma Appendix8()
    ensures forall j :: 0 <= j < 6 ==> Rows8()[j] == AppendixA(49 + j)
  {
    assert Rows8()[0] == AppendixA(49);
    assert Rows8()[1] == AppendixA(50);
    assert Rows8()[2] == AppendixA(51);
    assert Rows8()[3] == AppendixA(52);
    assert Rows8()[4] == AppendixA(53);
    assert Rows8()[5] == AppendixA(54);
  }

  lemma Appendix9()
    ensures forall j :: 0 <= j < 6 ==> Rows9()[j] == AppendixA(55 + j)
  {
    assert Rows9()[0] == AppendixA(55);
    assert Rows9()[1] == AppendixA(56);
    assert Rows9()[2] == AppendixA(57);
    assert Rows9()[3] == AppendixA(58);
    assert Rows9()[4] == AppendixA(59);
    assert Rows9()[5] == AppendixA(60);
  }

  lemma Appendix10()
    ensures forall j :: 0 <= j < 1 ==> Rows10()[j] == AppendixA(61 + j)
  {
    assert Rows10()[0] == AppendixA(61);
  }

  /** The encoder's static table is the decoder's. */
  lemma TableIsAppendixA(id: nat)
    requires 1 <= id <= STATIC_SIZE
    ensures Entries()[id - 1] == EntryOf(AppendixA(id))
  {
    Appendix0(); Appendix1(); Appendix2(); Appendix3(); Appendix4(); Appendix5();
    Appendix6(); Appendix7(); Appendix8(); Appendix9(); Appendix10();
    hide AppendixA, Rows0, Rows1, Rows2, Rows3, Rows4, Rows5, Rows6, Rows7, Rows8, Rows9, Rows10;
    RowAt(id - 1);
  }

  lemma RowAt(i: nat)
    requires i < STATIC_SIZE
    ensures |Rows0()| == |Rows1()| == |Rows2()| == |Rows3()| == |Rows4()| == |Rows5()| == 6
    ensures |Rows6()| == |Rows7()| == |Rows8()| == |Rows9()| == 6 && |Rows10()| == 1
    ensures Rows()[i] == if i < 6 then Rows0()[i] else if i < 12 then Rows1()[i - 6] else if i < 18 then Rows2()[i - 12]
                         else if i < 24 then Rows3()[i - 18] else if i < 30 then Rows4()[i - 24] else if i < 36 then Rows5()[i - 30]
                         else if i < 42 then Rows6()[i - 36] else if i < 48 then Rows7()[i - 42] else if i < 54 then Rows8()[i - 48]
                         else if i < 60 then Rows9()[i - 54] else Rows10()[0]
  {
  }

  function ToByte(c: char): Byte { if c as int < 256 then c as int else 63 }

  function Text(s: string): Str { seq(|s|, i requires 0 <= i < |s| => ToByte(s[i])) }

  function EntryOf(r: Row): Entry {
    Entry(Text(r.name), match r.value case None => None case Some(v) => Some(Text(v)))
  }

  function Entries(): (r: seq<Entry>)
    ensures |r| == STATIC_SIZE
  {
    seq(|Rows()|, i requires 0 <= i < |Rows()| => EntryOf(Rows()[i]))
  }

  ghost predicate Spaceless(r: Row) { ' ' !in r.name && |r.name| <= 40 && (r.value.Some? ==> |r.value.value| <= 40) }

  ghost predicate NoSpaces(rows: seq<Row>) { forall i :: 0 <= i < |rows| ==> Spaceless(rows[i]) }

  lemma NoSpaces0()
    ensures NoSpaces(Rows0())
  {
    assert ' ' !in ":authority";
    assert Spaceless(Row(":authority", None));
    assert ' ' !in ":method";
    assert Spaceless(Row(":method", Some("GET")));
    assert ' ' !in ":method";
    assert Spaceless(Row(":method", Some("POST")));
    assert ' ' !in ":path";
    assert Spaceless(Row(":path", Some("/")));
    assert ' ' !in ":path";
    assert Spaceless(Row(":path", Some("/index.html")));
    assert ' ' !in ":scheme";
    assert Spaceless(Row(":scheme", Some("http")));
    hide Spaceless;
  }

  lemma NoSpaces1()
    ensures NoSpaces(Rows1())
  {
    assert ' ' !in ":scheme";
    assert Spaceless(Row(":scheme", Some("https")));
    assert ' ' !in ":status";
    assert Spaceless(Row(":status", Some("200")));
    assert ' ' !in ":status";
    assert Spaceless(Row(":status", Some("204")));
    assert ' ' !in ":status";
    assert Spaceless(Row(":status", Some("206")));
    assert ' ' !in ":status";
    assert Spaceless(Row(":status", Some("304")));
    assert ' ' !in ":status";
    assert Spaceless(Row(":status", Some("400")));
    hide Spaceless;
  }

  lemma NoSpaces2()
    ensures NoSpaces(Rows2())
  {
    assert ' ' !in ":status";
    assert Spaceless(Row(":status", Some("404")));
    assert ' ' !in ":status";
    assert Spaceless(Row(":status", Some("500")));
    assert ' ' !in "accept-charset";
    assert Spaceless(Row("accept-charset", None));
    assert ' ' !in "accept-encoding";
    assert Spaceless(Row("accept-encoding", Some("gzip, deflate")));
    assert ' ' !in "accept-language";
    assert Spaceless(Row("accept-language", None));
    assert ' ' !in "accept-ranges";
    assert Spaceless(Row("accept-ranges", None));
    hide Spaceless;
  }

  lemma NoSpaces3()
    ensures NoSpaces(Rows3())
  {
    assert ' ' !in "accept";
    assert Spaceless(Row("accept", None));
    assert ' ' !in "access-control-";
    assert ' ' !in "allow-origin";
    assert Spaceless(Row("access-control-" + "allow-origin", None));
    assert ' ' !in "age";
    assert Spaceless(Row("age", None));
    assert ' ' !in "allow";
    assert Spaceless(Row("allow", None));
    assert ' ' !in "authorization";
    assert Spaceless(Row("authorization", None));
    assert ' ' !in "cache-control";
    assert Spaceless(Row("cache-control", None));
    hide Spaceless;
  }

  lemma NoSpaces4()
    ensures NoSpaces(Rows4())
  {
    assert ' ' !in "content-";
    assert ' ' !in "disposition";
    assert Spaceless(Row("content-" + "disposition", None));
    assert ' ' !in "content-";
    assert ' ' !in "encoding";
    assert Spaceless(Row("content-" + "encoding", None));
    assert ' ' !in "content-";
    assert ' ' !in "language";
    assert Spaceless(Row("content-" + "language", None));
    assert ' ' !in "content-length";
    assert Spaceless(Row("content-length", None));
    assert ' ' !in "content-";
    assert ' ' !in "location";
    assert Spaceless(Row("content-" + "location", None));
    assert ' ' !in "content-range";
    assert Spaceless(Row("content-range", None));
    hide Spaceless;
  }

  lemma NoSpaces5()
    ensures NoSpaces(Rows5())
  {
    assert ' ' !in "content-type";
    assert Spaceless(Row("content-type", None));
    assert ' ' !in "cookie";
    assert Spaceless(Row("cookie", None));
    assert ' ' !in "date";
    assert Spaceless(Row("date", None));
    assert ' ' !in "etag";
    assert Spaceless(Row("etag", None));
    assert ' ' !in "expect";
    assert Spaceless(Row("expect", None));
    assert ' ' !in "expires";
    assert Spaceless(Row("expires", None));
    hide Spaceless;
  }

  lemma NoSpaces6()
    ensures NoSpaces(Rows6())
  {
    assert ' ' !in "from";
    assert Spaceless(Row("from", None));
    assert ' ' !in "host";
    assert Spaceless(Row("host", None));
    assert ' ' !in "if-match";
    assert Spaceless(Row("if-match", None));
    assert ' ' !in "if-modified-";
    assert ' ' !in "since";
    assert Spaceless(Row("if-modified-" + "since", None));
    assert ' ' !in "if-none-match";
    assert Spaceless(Row("if-none-match", None));
    assert ' ' !in "if-range";
    assert Spaceless(Row("if-range", None));
    hide Spaceless;
  }

  lemma NoSpaces7()
    ensures NoSpaces(Rows7())
  {
    assert ' ' !in "if-unmodified-";
    assert ' ' !in "since";
    assert Spaceless(Row("if-unmodified-" + "since", None));
    assert ' ' !in "last-modified";
    assert Spaceless(Row("last-modified", None));
    assert ' ' !in "link";
    assert Spaceless(Row("link", None));
    assert ' ' !in "location";
    assert Spaceless(Row("location", None));
    assert ' ' !in "max-forwards";
    assert Spaceless(Row("max-forwards", None));
    assert ' ' !in "proxy-";
    assert ' ' !in "authenticate";
    assert Spaceless(Row("proxy-" + "authenticate", None));
    hide Spaceless;
  }

  lemma NoSpaces8()
    ensures NoSpaces(Rows8())
  {
    assert ' ' !in "proxy-";
    assert ' ' !in "authorization";
    assert Spaceless(Row("proxy-" + "authorization", None));
    assert ' ' !in "range";
    assert Spaceless(Row("range", None));
    assert ' ' !in "referer";
    assert Spaceless(Row("referer", None));
    assert ' ' !in "refresh";
    assert Spaceless(Row("refresh", None));
    assert ' ' !in "retry-after";
    assert Spaceless(Row("retry-after", None));
    assert ' ' !in "server";
    assert Spaceless(Row("server", None));
    hide Spaceless;
  }

  lemma NoSpaces9()
    ensures NoSpaces(Rows9())
  {
    assert ' ' !in "set-cookie";
    assert Spaceless(Row("set-cookie", None));
    assert ' ' !in "strict-transport-";
    assert ' ' !in "security";
    assert Spaceless(Row("strict-transport-" + "security", None));
    assert ' ' !in "transfer-";
    assert ' ' !in "encoding";
    assert Spaceless(Row("transfer-" + "encoding", None));
    assert ' ' !in "user-agent";
    assert Spaceless(Row("user-agent", None));
    assert ' ' !in "vary";
    assert Spaceless(Row("vary", None));
    assert ' ' !in "via";
    assert Spaceless(Row("via", None));
    hide Spaceless;
  }

  lemma NoSpaces10()
    ensures NoSpaces(Rows10())
  {
    assert ' ' !in "www-";
    assert ' ' !in "authenticate";
    assert Spaceless(Row("www-" + "authenticate", None));
    hide Spaceless;
  }

  lemma StaticNames(i: nat)
    requires i < STATIC_SIZE
    ensures Separated(Entries()[i].name) && Short(Entries()[i])
  {
    AllSpaceless();
    var name := Rows()[i].name;
    assert Spaceless(Rows()[i]);
    hide Rows, Rows0, Rows1, Rows2, Rows3, Rows4, Rows5, Rows6, Rows7, Rows8, Rows9, Rows10;
    assert Entries()[i].name == Text(name);
    forall k | 0 <= k < |name| ensures ToByte(name[k]) != SPACE { assert name[k] in name; }
  }

  lemma AllSpaceless()
    ensures NoSpaces(Rows())
  {
    NoSpaces0(); NoSpaces1(); NoSpaces2(); NoSpaces3(); NoSpaces4(); NoSpaces5();
    NoSpaces6(); NoSpaces7(); NoSpaces8(); NoSpaces9(); NoSpaces10();
    hide Rows0, Rows1, Rows2, Rows3, Rows4, Rows5, Rows6, Rows7, Rows8, Rows9, Rows10;
  }

  lemma AllNames()
    ensures forall i :: 0 <= i < STATIC_SIZE ==> Separated(Entries()[i].name) && Short(Entries()[i])
  {
    forall i | 0 <= i < STATIC_SIZE ensures Separated(Entries()[i].name) && Short(Entries()[i]) { StaticNames(i); }
  }

  /** Every name and every key of an entry with a value can be looked up. */
  ghost predicate Complete(entries: seq<Entry>, n: nat, stat: map<Str, nat>)
    requires n <= |entries|
  {
    forall i :: 0 <= i < n ==>
      entries[i].name in stat && (entries[i].value.Some? ==> Key(Field(entries[i].name, entries[i].value.value)) in stat)
  }

  /** The number of a name is that of the first entry that has it. */
  ghost predicate Firsts(entries: seq<Entry>, n: nat, stat: map<Str, nat>)
    requires n <= |entries|
  {
    forall i :: 0 <= i < n ==>
      && entries[i].name in stat && 1 <= stat[entries[i].name] <= i + 1
      && entries[stat[entries[i].name] - 1].name == entries[i].name
  }

  lemma NotAName(entries: seq<Entry>, f: Field)
    requires forall i :: 0 <= i < |entries| ==> Separated(entries[i].name)
    ensures forall i :: 0 <= i < |entries| ==> entries[i].name != Key(f)
  {
    HasSeparator(f);
    hide Separated, Key;
  }

  method CreateStaticTable() returns (stat: map<Str, nat>)
    ensures StaticOk(Entries(), stat) && Complete(Entries(), STATIC_SIZE, stat) && Firsts(Entries(), STATIC_SIZE, stat)
  {
    hide Entries, Key, Separated, Names, Complete, Firsts;
    AllNames();
    stat := FillTable(Entries());
  }

  /** The table after the first n entries. */
  ghost predicate Filled(entries: seq<Entry>, n: nat, stat: map<Str, nat>) {
    && n <= |entries| && Complete(entries, n, stat) && Firsts(entries, n, stat)
    && (forall key :: key in stat ==> Names(entries, key, stat[key]) && stat[key] <= n)
  }

  function NamePut(stat: map<Str, nat>, e: Entry, id: nat): map<Str, nat> {
    if e.name in stat then stat else stat[e.name := id]
  }

  function KeyPut(stat: map<Str, nat>, e: Entry, id: nat): map<Str, nat> {
    if e.value.None? then stat else stat[Key(Field(e.name, e.value.value)) := id]
  }

  lemma FilledMore(entries: seq<Entry>, n: nat, stat: map<Str, nat>)
    requires Filled(entries, n, stat) && n < |entries| && forall i :: 0 <= i < |entries| ==> Separated(entries[i].name)
    ensures Filled(entries, n + 1, KeyPut(NamePut(stat, entries[n], n + 1), entries[n], n + 1))
  {
    hide Key, Separated, Names, Complete, Firsts, NamePut, KeyPut;
    NamesMore(entries, n, stat);
    Puts(entries, n, stat);
    FirstsMore(entries, n, stat, KeyPut(NamePut(stat, entries[n], n + 1), entries[n], n + 1));
  }

  lemma NamesMore(entries: seq<Entry>, n: nat, stat: map<Str, nat>)
    requires n < |entries| && forall key :: key in stat ==> Names(entries, key, stat[key]) && stat[key] <= n
    ensures var stat2 := KeyPut(NamePut(stat, entries[n], n + 1), entries[n], n + 1);
            forall key :: key in stat2 ==> Names(entries, key, stat2[key]) && stat2[key] <= n + 1
  {
    hide Key;
    var e := entries[n];
    var stat2 := KeyPut(NamePut(stat, e, n + 1), e, n + 1);
    forall key | key in stat2 ensures Names(entries, key, stat2[key]) && stat2[key] <= n + 1 {
      if key in stat { assert Names(entries, key, stat[key]); }
    }
  }

  lemma Puts(entries: seq<Entry>, n: nat, stat: map<Str, nat>)
    requires n < |entries| && forall i :: 0 <= i < |entries| ==> Separated(entries[i].name)
    requires forall key :: key in stat ==> Names(entries, key, stat[key]) && stat[key] <= n
    ensures var e := entries[n]; var stat' := KeyPut(NamePut(stat, e, n + 1), e, n + 1);
            && stat.Keys <= stat'.Keys
            && (forall i :: 0 <= i < |entries| && entries[i].name in stat ==> stat'[entries[i].name] == stat[entries[i].name])
            && e.name in stat' && (e.value.Some? ==> Key(Field(e.name, e.value.value)) in stat')
            && 1 <= stat'[e.name] <= n + 1 && entries[stat'[e.name] - 1].name == e.name
  {
    hide Key, Separated, Names;
    var e := entries[n];
    if e.value.Some? { NotAName(entries, Field(e.name, e.value.value)); }
    if e.name in stat { NamedFirst(entries, stat, e.name); }
  }

  lemma NamedFirst(entries: seq<Entry>, stat: map<Str, nat>, name: Str)
    requires name in stat && Names(entries, name, stat[name]) && Separated(name)
    ensures 1 <= stat[name] <= |entries| && entries[stat[name] - 1].name == name
  {
    var e := entries[stat[name] - 1];
    if e.value.Some? { HasSeparator(Field(e.name, e.value.value)); }
  }

  lemma FirstsMore(entries: seq<Entry>, n: nat, stat: map<Str, nat>, stat': map<Str, nat>)
    requires n < |entries| && Complete(entries, n, stat) && Firsts(entries, n, stat)
    requires stat.Keys <= stat'.Keys && forall i :: 0 <= i < |entries| && entries[i].name in stat ==> stat'[entries[i].name] == stat[entries[i].name]
    requires var e := entries[n];
             && e.name in stat' && (e.value.Some? ==> Key(Field(e.name, e.value.value)) in stat')
             && 1 <= stat'[e.name] <= n + 1 && entries[stat'[e.name] - 1].name == e.name
    ensures Complete(entries, n + 1, stat') && Firsts(entries, n + 1, stat')
  {
    hide Key;
  }

  /** A name keeps the number of its first entry. */
  method FillTable(entries: seq<Entry>) returns (stat: map<Str, nat>)
    requires forall i :: 0 <= i < |entries| ==> Separated(entries[i].name)
    ensures Filled(entries, |entries|, stat)
  {
    hide Key, Separated, Filled;
    stat := map[];
    var i := 0;
    NoneFilled(entries);
    while i < |entries|
      invariant 0 <= i <= |entries| && Filled(entries, i, stat)
    {
      var e := entries[i];
      FilledMore(entries, i, stat);
      if e.name !in stat { stat := stat[e.name := i + 1]; }
      if e.value.Some? { stat := stat[Key(Field(e.name, e.value.value)) := i + 1]; }
      i := i + 1;
    }
  }

  lemma NoneFilled(entries: seq<Entry>)
    ensures Filled(entries, 0, map[])
  {
  }

  // ---------------------------------------------------------- the dynamic table

  /** The entries numbered from `tail` up to `head`, oldest first. */
  ghost function LiveOf(items: map<int, Field>, tail: int, head: int): (live: seq<Field>)
    ensures |live| == if tail <= head then head - tail else 0
    ensures forall j :: 0 <= j < |live| && tail + j in items ==> live[j] == items[tail + j]
  {
    seq(if tail <= head then head - tail else 0, j => if tail + j in items then items[tail + j] else Field([], []))
  }

  /** The numbers in use are those from `tail` to `head`, and each entry is found by its key. */
  ghost predicate Numbered(items: map<int, Field>, ids: map<Str, int>, tail: int, head: int) {
    && tail <= head
    && (forall i :: i in items <==> tail <= i < head)
    && (forall i :: i in items ==> Key(items[i]) in ids && ids[Key(items[i])] == i)
    && (forall key :: key in ids ==> ids[key] in items && Key(items[ids[key]]) == key)
  }

  class Encoder {
    const stat: map<Str, nat>
    var limit: nat
    var tableSize: int
    var head: int
    var tail: int
    var usedMin: int
    var evictCount: int
    var items: map<int, Field>
    var ids: map<Str, int>

    ghost predicate Valid()
      reads this
    {
      && StaticOk(Entries(), stat)
      && 1 <= tail && evictCount == tail - 1 && Numbered(items, ids, tail, head)
      && tableSize == Sum(LiveOf(items, tail, head)) && tableSize <= limit
    }

    ghost predicate InBlock()
      reads this
    {
      Valid() && tail <= usedMin <= head
    }

    /** Numbers that are no longer used do not pile up. */
    predicate Compact()
      reads this
    {
      evictCount <= 64 || evictCount <= head / 2
    }

    ghost function Abs(): (e: Enc)
      reads this
      ensures e.used <= |e.live|
    {
      Enc(limit, LiveOf(items, tail, head), if tail <= usedMin <= head then usedMin - tail else 0)
    }

    constructor (max: nat)
      ensures Valid() && Compact() && Abs().live == [] && limit == max
    {
      var table := CreateStaticTable();
      stat := table;
      limit, tableSize, head, tail, evictCount := max, 0, 1, 1, 0;
      items, ids := map[], map[];
    }

    method EvictOne()
      requires InBlock() && tail < usedMin
      modifies `tail, `ids, `items, `evictCount, `tableSize
      ensures InBlock() && tail == old(tail) + 1
      ensures LiveOf(items, tail, head) == old(LiveOf(items, tail, head))[1..] && ids.Keys <= old(ids.Keys)
    {
      hide StaticOk, Key, Size, Sum, Numbered, LiveOf;
      var i := tail;
      tail := tail + 1;
      RemoveOldest(items, ids, i, head);
      var f := items[i];
      ids := ids - {Key(f)};
      items := items - {i};
      evictCount := evictCount + 1;
      tableSize := tableSize - Size(f);
    }

    /** Renumbers the entries from one. */
    method Prune()
      requires InBlock() && tail > 1
      modifies `tail, `head, `usedMin, `ids, `items, `evictCount
      ensures InBlock() && tail == 1 && Abs() == old(Abs()) && ids.Keys == old(ids.Keys)
    {
      hide StaticOk, Key, Size, Sum, Numbered, LiveOf, Pruning;
      ghost var items0, ids0, d := items, ids, tail - 1;
      var idx := 0;
      var i := tail;
      PruneStart(items, ids, tail, head);
      while i < head
        invariant tail <= i <= head && idx == i - tail
        invariant tail == old(tail) && head == old(head) && usedMin == old(usedMin) && limit == old(limit) && tableSize == old(tableSize)
        invariant Pruning(items0, ids0, items, ids, tail, head, i)
      {
        idx := idx + 1;
        PruneStep(items0, ids0, items, ids, tail, head, i);
        ids := ids[Key(items[i]) := idx];
        items := items[idx := items[i]] - {i};
        i := i + 1;
      }
      PruneEnd(items0, ids0, items, ids, tail, head);
      usedMin := usedMin - (tail - 1);
      tail := 1;
      head := idx + 1;
      evictCount := 0;
    }

    method TryEvict(left: nat) returns (ok: bool)
      requires InBlock()
      modifies `tail, `head, `usedMin, `ids, `items, `evictCount, `tableSize
      ensures InBlock() && Abs() == Evict(old(Abs()), left) && (old(Compact()) ==> Compact())
      ensures (ok <==> limit - Sum(Abs().live) >= left) && ids.Keys <= old(ids.Keys)
    {
      hide StaticOk, Key, Size, Sum, Numbered, LiveOf, Pruning;
      if limit - tableSize >= left { return true; }
      ghost var live0, tail0 := LiveOf(items, tail, head), tail;
      while tail < usedMin
        invariant InBlock() && usedMin == old(usedMin) && head == old(head) && limit == old(limit)
        invariant ids.Keys <= old(ids.Keys)
        invariant tail0 <= tail <= usedMin && LiveOf(items, tail, head) == live0[tail - tail0..]
      {
        EvictOne();
      }
      if evictCount > head / 2 && evictCount > 64 { Prune(); }
      ok := limit - tableSize >= left;
    }

    method AddToTable(f: Field) returns (added: bool)
      requires InBlock() && Key(f) !in ids
      modifies `tail, `head, `usedMin, `ids, `items, `evictCount, `tableSize
      ensures InBlock() && (Abs(), added) == Add(old(Abs()), f) && (old(Compact()) ==> Compact())
    {
      hide StaticOk, Key, Size, Sum, Numbered, LiveOf, Pruning;
      added := TryEvict(Size(f));
      if added {
        Appended(items, ids, tail, head, f);
        var idx := head;
        head := head + 1;
        items := items[idx := f];
        ids := ids[Key(f) := idx];
        tableSize := tableSize + Size(f);
      }
    }

    /** The number a decoder gives to an entry: the newest comes right after the static table. */
    function DynamicId(id: int): (r: nat)
      reads this
      requires Valid() && id in items
      ensures STATIC_SIZE < r <= STATIC_SIZE + |Abs().live|
      ensures Abs().live[|Abs().live| - (r - STATIC_SIZE)] == items[id]
    {
      head - id + STATIC_SIZE
    }

    method PackField(f: Field) returns (b: Str)
      requires InBlock()
      modifies `tail, `head, `usedMin, `ids, `items, `evictCount, `tableSize
      ensures InBlock() && (old(Compact()) ==> Compact())
      ensures var (e, r) := HpackTable.PackField(stat, old(Abs()), f); Abs() == e && b == Wire(r)
    {
      hide StaticOk, Key, Size, Sum, Numbered, LiveOf, Add, Find, Wire, PrefixInt;
      FindIs(items, ids, tail, head, Key(f));
      var can := Size(f) < HEADER_SIZE;
      if can {
        if Key(f) in stat {
          b := WriteIndexed(stat[Key(f)]);
          return;
        }
        if Key(f) in ids {
          var idx := ids[Key(f)];
          var id := DynamicId(idx);
          if idx < usedMin { usedMin := idx; }
          b := WriteIndexed(id);
          return;
        }
        can := AddToTable(f);
      }
      if f.name in stat {
        b := WriteNamed(stat[f.name], f.value, can);
      } else {
        b := WriteSpelled(f.name, f.value, can);
      }
    }

    method StartBlock()
      requires Valid()
      modifies `usedMin
      ensures InBlock() && Abs() == old(Abs()).(used := |old(Abs()).live|)
    {
      hide StaticOk, Key, Sum;
      usedMin := head;
    }

    /** A header block, field by field. */
    method Pack(fields: seq<Field>) returns (b: Str)
      requires Valid()
      modifies `tail, `head, `usedMin, `ids, `items, `evictCount, `tableSize
      ensures InBlock() && (Abs(), b) == PackBlock(stat, old(Abs()), fields) && (old(Compact()) ==> Compact())
    {
      hide StaticOk, LiveOf, InBlock, Valid, Abs, HpackTable.PackField, PackFields, Wire;
      StartBlock();
      ghost var e := Abs();
      PackNone(stat, e);
      b := [];
      var i := 0;
      assert fields[..0] == [];
      while i < |fields|
        invariant 0 <= i <= |fields| && InBlock() && (Abs(), b) == PackFields(stat, e, fields[..i]) && (old(Compact()) ==> Compact())
      {
        PackOneMore(stat, e, fields[..i], fields[i]);
        assert fields[..i] + [fields[i]] == fields[..i + 1];
        var c := PackField(fields[i]);
        b := b + c;
        i := i + 1;
      }
      assert fields[..i] == fields;
    }
  }

  lemma RemoveOldest(items: map<int, Field>, ids: map<Str, int>, tail: int, head: int)
    requires Numbered(items, ids, tail, head) && tail < head
    ensures tail in items && Numbered(items - {tail}, ids - {Key(items[tail])}, tail + 1, head)
    ensures LiveOf(items - {tail}, tail + 1, head) == LiveOf(items, tail, head)[1..]
    ensures Sum(LiveOf(items, tail, head)) == Size(items[tail]) + Sum(LiveOf(items, tail, head)[1..])
  {
    hide Key, Size, Sum;
    var live := LiveOf(items, tail, head);
    SumCons(live[0], live[1..]);
    assert live == [live[0]] + live[1..];
  }

  /** Entries before `i` have moved down to start at one; the others are where they were. */
  ghost predicate Pruning(items0: map<int, Field>, ids0: map<Str, int>, items: map<int, Field>, ids: map<Str, int>,
                          tail: int, head: int, i: int) {
    PruningItems(items0, items, tail, head, i) && PruningIds(ids0, ids, tail, i)
  }

  ghost predicate PruningItems(items0: map<int, Field>, items: map<int, Field>, tail: int, head: int, i: int) {
    && (forall k :: k in items <==> 1 <= k <= i - tail || i <= k < head)
    && (forall k :: k in items ==> Origin(k, tail, i) in items0 && items[k] == items0[Origin(k, tail, i)])
  }

  /** The number an entry had before, when those before `i` have moved. */
  function Origin(k: int, tail: int, i: int): int { if k <= i - tail then k + tail - 1 else k }

  ghost predicate PruningIds(ids0: map<Str, int>, ids: map<Str, int>, tail: int, i: int) {
    && ids.Keys == ids0.Keys
    && (forall key :: key in ids0 ==> ids[key] == if ids0[key] < i then ids0[key] - tail + 1 else ids0[key])
  }

  lemma PruneStart(items: map<int, Field>, ids: map<Str, int>, tail: int, head: int)
    requires Numbered(items, ids, tail, head) && 1 <= tail
    ensures Pruning(items, ids, items, ids, tail, head, tail)
  {
    hide Key;
  }

  lemma PruneStep(items0: map<int, Field>, ids0: map<Str, int>, items: map<int, Field>, ids: map<Str, int>,
                  tail: int, head: int, i: int)
    requires Numbered(items0, ids0, tail, head) && Pruning(items0, ids0, items, ids, tail, head, i) && 1 < tail <= i < head
    ensures i in items
    ensures Pruning(items0, ids0, items[i - tail + 1 := items[i]] - {i}, ids[Key(items[i]) := i - tail + 1], tail, head, i + 1)
  {
    hide Key;
    assert items[i] == items0[i] && ids0[Key(items0[i])] == i;
    forall key | key in ids0 && ids0[key] == i ensures key == Key(items[i]) { assert Key(items0[ids0[key]]) == key; }
    hide Numbered;
    PruneItem(items0, items, tail, head, i);
    PruneId(ids0, ids, tail, i, Key(items[i]));
  }

  lemma PruneItem(items0: map<int, Field>, items: map<int, Field>, tail: int, head: int, i: int)
    requires PruningItems(items0, items, tail, head, i) && 1 < tail <= i < head
    ensures i in items && PruningItems(items0, items[i - tail + 1 := items[i]] - {i}, tail, head, i + 1)
  {
    var a, items' := i - tail + 1, items[i - tail + 1 := items[i]] - {i};
    assert forall k :: k in items' <==> k != i && (k in items || k == a);
    forall k | k in items' ensures Origin(k, tail, i + 1) in items0 && items'[k] == items0[Origin(k, tail, i + 1)] {
      assert Origin(k, tail, i + 1) == Origin(if k == a then i else k, tail, i);
    }
  }

  lemma PruneId(ids0: map<Str, int>, ids: map<Str, int>, tail: int, i: int, key: Str)
    requires PruningIds(ids0, ids, tail, i) && key in ids0 && ids0[key] == i
    requires forall k :: k in ids0 && ids0[k] == i ==> k == key
    ensures PruningIds(ids0, ids[key := i - tail + 1], tail, i + 1)
  {
    assert ids[key := i - tail + 1].Keys == ids0.Keys;
  }

  lemma PruneEnd(items0: map<int, Field>, ids0: map<Str, int>, items: map<int, Field>, ids: map<Str, int>, tail: int, head: int)
    requires Numbered(items0, ids0, tail, head) && Pruning(items0, ids0, items, ids, tail, head, head) && 1 < tail
    ensures Numbered(items, ids, 1, head - tail + 1)
    ensures LiveOf(items, 1, head - tail + 1) == LiveOf(items0, tail, head) && ids.Keys == ids0.Keys
  {
    hide Key, LiveOf;
    SameLive(items0, ids0, items, ids, tail, head);
    forall i | i in items ensures Key(items[i]) in ids && ids[Key(items[i])] == i {
      assert items[i] == items0[i + tail - 1];
    }
    forall key | key in ids ensures ids[key] in items && Key(items[ids[key]]) == key {
      assert ids0[key] in items0 && Key(items0[ids0[key]]) == key;
      assert items[ids[key]] == items0[ids[key] + tail - 1];
    }
  }

  lemma SameLive(items0: map<int, Field>, ids0: map<Str, int>, items: map<int, Field>, ids: map<Str, int>, tail: int, head: int)
    requires Numbered(items0, ids0, tail, head) && Pruning(items0, ids0, items, ids, tail, head, head)
    ensures LiveOf(items, 1, head - tail + 1) == LiveOf(items0, tail, head)
  {
    hide Key;
    var a, b := LiveOf(items, 1, head - tail + 1), LiveOf(items0, tail, head);
    forall j | 0 <= j < head - tail ensures a[j] == b[j] { assert items[1 + j] == items0[1 + j + tail - 1]; }
  }

  lemma Appended(items: map<int, Field>, ids: map<Str, int>, tail: int, head: int, f: Field)
    requires Numbered(items, ids, tail, head) && Key(f) !in ids
    ensures Numbered(items[head := f], ids[Key(f) := head], tail, head + 1)
    ensures LiveOf(items[head := f], tail, head + 1) == LiveOf(items, tail, head) + [f]
    ensures Sum(LiveOf(items[head := f], tail, head + 1)) == Sum(LiveOf(items, tail, head)) + Size(f)
  {
    hide Key, Size;
    var live := LiveOf(items, tail, head);
    assert (live + [f])[..|live|] == live;
  }

  lemma FindIs(items: map<int, Field>, ids: map<Str, int>, tail: int, head: int, key: Str)
    requires Numbered(items, ids, tail, head)
    ensures var j := Find(LiveOf(items, tail, head), key);
            if key in ids then ids[key] in items && j == ids[key] - tail else j < 0
  {
    hide Key, Find;
    var live := LiveOf(items, tail, head);
    var j := Find(live, key);
    if key in ids {
      assert Key(live[ids[key] - tail]) == key;
    }
    if j >= 0 { assert Key(items[tail + j]) == key; }
  }

  lemma PackNone(stat: map<Str, nat>, e: Enc)
    requires e.used <= |e.live|
    ensures PackFields(stat, e, []) == (e, [])
  {
  }

  lemma {:induction false} PackOneMore(stat: map<Str, nat>, e: Enc, fs: seq<Field>, f: Field)
    requires e.used <= |e.live|
    ensures var (e1, b) := PackFields(stat, e, fs);
            var (e2, r) := HpackTable.PackField(stat, e1, f);
            PackFields(stat, e, fs + [f]) == (e2, b + Wire(r))
    decreases |fs|
  {
    hide HpackTable.PackField, Wire;
    if fs == [] {
      assert [f][1..] == [] && fs + [f] == [f];
      var (e2, r) := HpackTable.PackField(stat, e, f);
      assert [] + Wire(r) == Wire(r) + [];
    } else {
      var (e0, r0) := HpackTable.PackField(stat, e, fs[0]);
      PackOneMore(stat, e0, fs[1..], f);
      assert (fs + [f])[0] == fs[0] && (fs + [f])[1..] == fs[1..] + [f];
      var (e1, b) := PackFields(stat, e0, fs[1..]);
      var (e2, r) := HpackTable.PackField(stat, e1, f);
      assert Wire(r0) + (b + Wire(r)) == Wire(r0) + b + Wire(r);
    }
  }

  method WriteIndexed(id: nat) returns (b: Str)
    ensures b == Wire(Indexed(id))
  {
    b := WriteVarint(1, id, 7);
  }

  method WriteNamed(id: nat, text: Str, add: bool) returns (b: Str)
    ensures b == Wire(Named(id, text, add))
  {
    hide PrefixInt, Literal;
    if add { b := WriteVarint(1, id, 6); } else { b := WriteVarint(0, id, 4); }
    var l := WriteLiteral(text);
    b := b + l;
  }

  method WriteSpelled(name: Str, text: Str, add: bool) returns (b: Str)
    ensures b == Wire(Spelled(name, text, add))
  {
    hide Literal;
    b := [if add then 0x40 else 0];
    var l := WriteLiteral(name);
    var m := WriteLiteral(text);
    b := b + l + m;
  }
}
