/** The Redis protocol: the command encoder and the reply reader
    (services/core/cmd/api/redis.go). */
module Resp {
  import opened Common
  import opened Decimal

  /** A reply value; Nil is a missing one inside a list. */
  datatype Value = Text(bytes: Bytes) | Number(n: int) | Nil | List(items: seq<Value>)

  /** What readRESP returns: a value, "nil", an error reply, or a broken stream. */
  datatype Reply = Got(value: Value) | NoValue | ErrorReply(body: Bytes) | Broken

  const CR: Byte := 13
  const LF: Byte := 10
  const CRLF: Bytes := [CR, LF]
  const STAR: Byte := 42
  const DOLLAR: Byte := 36
  const COLON: Byte := 58
  const DASH: Byte := 45

  const MAX_TEXT := 0x10_0000
  const MAX_ITEMS := 1024

  // ---- writing ----

  function Header(kind: Byte, n: int): Bytes { [kind] + Written(n) + CRLF }

  function Bulk(a: Bytes): Bytes { Header(DOLLAR, |a|) + a + CRLF }

  function Bulks(args: seq<Bytes>): Bytes {
    if args == [] then [] else Bulk(args[0]) + Bulks(args[1..])
  }

  /** A command: an array of bulk strings. */
  function Command(args: seq<Bytes>): Bytes { Header(STAR, |args|) + Bulks(args) }

  lemma BulksFirst(args: seq<Bytes>)
    requires args != []
    ensures Bulks(args) == Bulk(args[0]) + Bulks(args[1..])
  {}

  lemma {:induction false} BulksSnoc(args: seq<Bytes>, a: Bytes)
    ensures Bulks(args + [a]) == Bulks(args) + Bulk(a)
  {
    hide Bulks, Bulk;
    var all := args + [a];
    BulksFirst(all);
    NoBulks();
    if args == [] {
      assert all[1..] == [] && all[0] == a;
      assert Bulk(a) + [] == Bulk(a) && [] + Bulk(a) == Bulk(a);
    } else {
      BulksSnoc(args[1..], a);
      BulksFirst(args);
      assert all[1..] == args[1..] + [a] && all[0] == args[0];
      assert Bulk(args[0]) + (Bulks(args[1..]) + Bulk(a)) == Bulk(args[0]) + Bulks(args[1..]) + Bulk(a);
    }
  }

  lemma NoBulks()
    ensures Bulks([]) == []
  {}

  /** redisConn.do, as far as it writes. */
  method EncodeCommand(args: seq<Bytes>) returns (out: Bytes)
    ensures out == Command(args)
  {
    hide Bulks, Written;
    out := [STAR] + Written(|args|) + CRLF;
    assert args[..0] == [] && Bulks([]) == [] by {
      NoBulks();
    }
    for i := 0 to |args|
      invariant out == Header(STAR, |args|) + Bulks(args[..i])
    {
      BulksSnoc(args[..i], args[i]);
      assert args[..i] + [args[i]] == args[..i + 1];
      out := out + ([DOLLAR] + Written(|args[i]|) + CRLF + args[i] + CRLF);
    }
    assert args[..|args|] == args;
  }

  /** GET with a key of one letter, octet by octet. */
  lemma GetIsWritten()
    ensures Command([[71, 69, 84], [97]])
         == [42, 50, 13, 10, 36, 51, 13, 10, 71, 69, 84, 13, 10, 36, 49, 13, 10, 97, 13, 10]
  {
    hide Bulks, Bulk, Written, Header;
    var get: Bytes, key: Bytes := [71, 69, 84], [97];
    BulksFirst([get, key]);
    BulksFirst([key]);
    NoBulks();
    assert [get, key][1..] == [key] && [key][1..] == [];
    Octets();
    assert Bulk(key) + [] == Bulk(key);
  }

  lemma Octets()
    ensures Header(STAR, 2) == [42, 50, 13, 10]
    ensures Bulk([71, 69, 84]) == [36, 51, 13, 10, 71, 69, 84, 13, 10] && Bulk([97]) == [36, 49, 13, 10, 97, 13, 10]
  {
    assert Written(2) == [50] && Written(3) == [51] && Written(1) == [49];
  }

  // ---- reading ----

  /** The position after the first line feed, or none. */
  function LineEnd(s: Bytes): Option<nat>
    ensures LineEnd(s).Some? ==> 0 < LineEnd(s).value <= |s| && s[LineEnd(s).value - 1] == LF
  {
    if s == [] then None
    else if s[0] == LF then Some(1)
    else
      var rest := LineEnd(s[1..]);
      if rest.None? then None else Some(rest.value + 1)
  }

  /** readRESP: what it returns and the stream that is left. */
  function Read(s: Bytes): (r: (Reply, Bytes))
    ensures |r.1| <= |s|
    decreases |s|, 0
  {
    var end := LineEnd(s);
    if end.None? then (Broken, [])
    else
      var line, rest := s[..end.value], s[end.value..];
      if |line| < 3 || line[|line| - 2] != CR then (Broken, rest)
      else
        var body := line[1..|line| - 2];
        if line[0] == PLUS then (Got(Text(body)), rest)
        else if line[0] == DASH then (ErrorReply(body), rest)
        else if line[0] == COLON then
          var n := ParseInt(body);
          (if n.None? then Broken else Got(Number(n.value)), rest)
        else if line[0] == DOLLAR then ReadBulk(ParseInt(body), rest)
        else if line[0] == STAR then
          var n := ParseInt(body);
          if n.None? || n.value > MAX_ITEMS then (Broken, rest)
          else if n.value < 0 then (NoValue, rest)
          else ReadItems(rest, n.value, [])
        else (Broken, rest)
  }

  /** The text of a bulk string and the two octets after it. */
  function ReadBulk(n: Option<int>, rest: Bytes): (r: (Reply, Bytes))
    ensures |r.1| <= |rest|
  {
    if n.None? || n.value > MAX_TEXT then (Broken, rest)
    else if n.value < 0 then (NoValue, rest)
    else if |rest| < n.value + 2 then (Broken, [])
    else (Got(Text(rest[..n.value])), rest[n.value + 2..])
  }

  /** The loop over the items of an array; a nil item is kept as such, any
      other error ends it. */
  function ReadItems(s: Bytes, n: nat, items: seq<Value>): (r: (Reply, Bytes))
    ensures |r.1| <= |s|
    decreases |s|, 1, n
  {
    if n == 0 then (Got(List(items)), s)
    else
      var (reply, rest) := Read(s);
      match reply
      case Got(v) => ReadItems(rest, n - 1, items + [v])
      case NoValue => ReadItems(rest, n - 1, items + [Nil])
      case _ => (reply, rest)
  }

  /** The connection's buffered reader, consumed as it is read. */
  class Reader {
    var left: Bytes

    constructor (stream: Bytes)
      ensures left == stream
    {
      left := stream;
    }

    /** ReadString up to a line feed; the end of the stream loses what was left. */
    method ReadLine() returns (line: Option<Bytes>)
      modifies this
      ensures var end := LineEnd(old(left));
        if end.Some? then line == Some(old(left)[..end.value]) && left == old(left)[end.value..]
        else line == None && left == []
    {
      var i := 0;
      while i < |left|
        invariant 0 <= i <= |left| && left == old(left)
        invariant forall k | 0 <= k < i :: left[k] != LF
      {
        i := i + 1;
        if left[i - 1] == LF {
          FirstLineFeed(left, i - 1);
          line := Some(left[..i]);
          left := left[i..];
          return;
        }
      }
      NoLineFeed(left);
      left := [];
      return None;
    }

    /** readRESP */
    method ReadReply() returns (r: Reply)
      modifies this
      ensures (r, left) == Read(old(left))
      decreases |left|, 0
    {
      hide LineEnd, ParseInt;
      var read := ReadLine();
      if read.None? {
        return Broken;
      }
      var line := read.value;
      if |line| < 3 || line[|line| - 2] != CR {
        return Broken;
      }
      var body := line[1..|line| - 2];
      if line[0] == PLUS {
        return Got(Text(body));
      } else if line[0] == DASH {
        return ErrorReply(body);
      } else if line[0] == COLON {
        var n := ParseInt(body);
        return if n.None? then Broken else Got(Number(n.value));
      } else if line[0] == DOLLAR {
        r := ReadText(ParseInt(body));
      } else if line[0] == STAR {
        var n := ParseInt(body);
        if n.None? || n.value > MAX_ITEMS {
          return Broken;
        }
        if n.value < 0 {
          return NoValue;
        }
        r := ReadList(n.value);
      } else {
        return Broken;
      }
    }

    method ReadText(n: Option<int>) returns (r: Reply)
      modifies this
      ensures (r, left) == ReadBulk(n, old(left))
    {
      if n.None? || n.value > MAX_TEXT {
        return Broken;
      }
      if n.value < 0 {
        return NoValue;
      }
      if |left| < n.value + 2 {
        left := [];
        return Broken;
      }
      r := Got(Text(left[..n.value]));
      left := left[n.value + 2..];
    }

    method ReadList(n: nat) returns (r: Reply)
      modifies this
      ensures (r, left) == ReadItems(old(left), n, [])
      decreases |left|, 1
    {
      hide Read;
      var items: seq<Value> := [];
      for i := 0 to n
        invariant |left| <= |old(left)|
        invariant ReadItems(left, n - i, items) == ReadItems(old(left), n, [])
      {
        var reply := ReadReply();
        match reply {
          case Got(v) => items := items + [v];
          case NoValue => items := items + [Nil];
          case _ => return reply;
        }
      }
      return Got(List(items));
    }
  }

  lemma {:induction false} FirstLineFeed(s: Bytes, i: nat)
    requires i < |s| && s[i] == LF && forall k | 0 <= k < i :: s[k] != LF
    ensures LineEnd(s) == Some(i + 1)
  {
    if i > 0 {
      FirstLineFeed(s[1..], i - 1);
    }
  }

  lemma {:induction false} NoLineFeed(s: Bytes)
    requires forall k | 0 <= k < |s| :: s[k] != LF
    ensures LineEnd(s) == None
  {}

  // ---- reading back ----

  lemma {:induction false} LineEndAt(line: Bytes, rest: Bytes)
    requires forall i | 0 <= i < |line| :: line[i] != LF
    ensures LineEnd(line + CRLF + rest) == Some(|line| + 2)
  {
    if line == [] {
      var s := CRLF + rest;
      assert [] + CRLF + rest == s && s[1..] == [LF] + rest;
    } else {
      LineEndAt(line[1..], rest);
      assert (line + CRLF + rest)[1..] == line[1..] + CRLF + rest;
    }
  }

  /** A header line is read as its kind and its number. */
  lemma HeaderLine(kind: Byte, n: int, rest: Bytes)
    requires kind != LF && -MAX_INT64 - 1 <= n <= MAX_INT64
    ensures var s := Header(kind, n) + rest;
      var end := LineEnd(s);
      && end == Some(|Header(kind, n)|) && s[..end.value] == Header(kind, n) && s[end.value..] == rest
      && |Header(kind, n)| >= 3 + 1 && Header(kind, n)[|Header(kind, n)| - 2] == CR && Header(kind, n)[0] == kind
      && ParseInt(Header(kind, n)[1..|Header(kind, n)| - 2]) == Some(n)
  {
    hide Written, ParseInt, LineEnd;
    WrittenPlain(n);
    ParseWritten(n);
    var line := [kind] + Written(n);
    LineEndAt(line, rest);
    assert Header(kind, n) == line + CRLF;
    assert Header(kind, n)[1..|line|] == Written(n);
  }

  /** What reading makes of a header with a number. */
  lemma ReadsHeader(kind: Byte, n: int, rest: Bytes)
    requires -MAX_INT64 - 1 <= n <= MAX_INT64
    ensures kind == COLON ==> Read(Header(kind, n) + rest) == (Got(Number(n)), rest)
    ensures kind == DOLLAR ==> Read(Header(kind, n) + rest) == ReadBulk(Some(n), rest)
    ensures kind == STAR && n > MAX_ITEMS ==> Read(Header(kind, n) + rest) == (Broken, rest)
    ensures kind == STAR && n < 0 ==> Read(Header(kind, n) + rest) == (NoValue, rest)
    ensures kind == STAR && 0 <= n <= MAX_ITEMS ==> Read(Header(kind, n) + rest) == ReadItems(rest, n, [])
  {
    hide Written, ParseInt, Header, LineEnd, ReadBulk, ReadItems;
    if kind == COLON || kind == DOLLAR || kind == STAR {
      HeaderLine(kind, n, rest);
    }
  }

  lemma ReadsBulk(a: Bytes, rest: Bytes)
    requires |a| <= MAX_INT64
    ensures Read(Bulk(a) + rest) == if |a| <= MAX_TEXT then (Got(Text(a)), rest) else (Broken, a + CRLF + rest)
  {
    hide Read, Header;
    var after := a + CRLF + rest;
    ReadsHeader(DOLLAR, |a|, after);
    assert Bulk(a) + rest == Header(DOLLAR, |a|) + after;
    assert after[..|a|] == a && after[|a| + 2..] == rest;
  }

  function Texts(args: seq<Bytes>): (r: seq<Value>)
    ensures |r| == |args|
  {
    seq(|args|, i requires 0 <= i < |args| => Text(args[i]))
  }

  predicate Fit(args: seq<Bytes>) { forall i | 0 <= i < |args| :: |args[i]| <= MAX_TEXT }

  lemma {:induction false} ReadsBulks(args: seq<Bytes>, rest: Bytes, items: seq<Value>)
    requires forall i | 0 <= i < |args| :: |args[i]| <= MAX_INT64
    ensures var r := ReadItems(Bulks(args) + rest, |args|, items);
      if Fit(args) then r == (Got(List(items + Texts(args))), rest) else r.0 == Broken
  {
    hide Read, Bulk;
    if args == [] {
      assert [] + rest == rest && items + Texts([]) == items;
    } else {
      var tail := Bulks(args[1..]) + rest;
      assert Bulks(args) + rest == Bulk(args[0]) + tail;
      ReadsBulk(args[0], tail);
      if |args[0]| <= MAX_TEXT {
        ReadsBulks(args[1..], rest, items + [Text(args[0])]);
        assert items + [Text(args[0])] + Texts(args[1..]) == items + Texts(args);
        assert Fit(args) <==> Fit(args[1..]) by {
          assert forall i | 1 <= i < |args| :: args[i] == args[1..][i - 1];
        }
      }
    }
  }

  /** readRESP on an encoded command returns the same list of arguments and
      leaves the rest of the stream untouched, exactly when there are at most
      1024 arguments of at most 1 MiB each; otherwise it reports a broken
      stream. The arguments may hold any octets, line breaks included. */
  lemma CommandReadsBack(args: seq<Bytes>, rest: Bytes)
    requires |args| <= MAX_INT64 && forall i | 0 <= i < |args| :: |args[i]| <= MAX_INT64
    ensures var r := Read(Command(args) + rest);
      if |args| <= MAX_ITEMS && Fit(args) then r == (Got(List(Texts(args))), rest) else r.0 == Broken
  {
    hide Read, Header, Bulks, ReadItems;
    var after := Bulks(args) + rest;
    ReadsHeader(STAR, |args|, after);
    assert Command(args) + rest == Header(STAR, |args|) + after;
    if |args| <= MAX_ITEMS {
      ReadsBulks(args, rest, []);
      assert [] + Texts(args) == Texts(args);
    }
  }

  // ---- replies in general ----

  /** A well-formed reply, as a server writes it. */
  function Encoded(v: Value): Bytes
    decreases v, 0
  {
    match v
    case Text(a) => Bulk(a)
    case Number(n) => Header(COLON, n)
    case Nil => Header(DOLLAR, -1)
    case List(items) => Header(STAR, |items|) + EncodedAll(items)
  }

  function EncodedAll(vs: seq<Value>): Bytes
    decreases vs, 1
  {
    if vs == [] then [] else Encoded(vs[0]) + EncodedAll(vs[1..])
  }

  predicate Supported(v: Value)
    decreases v
  {
    match v
    case Text(a) => |a| <= MAX_TEXT
    case Number(n) => -MAX_INT64 - 1 <= n <= MAX_INT64
    case Nil => true
    case List(items) => |items| <= MAX_ITEMS && forall i | 0 <= i < |items| :: Supported(items[i])
  }

  function AsReply(v: Value): Reply { if v == Nil then NoValue else Got(v) }

  /** Any reply within the limits, nested lists and nils included, is read back
      as the value it was, with the rest of the stream left. */
  lemma {:induction false} ReplyReadsBack(v: Value, rest: Bytes)
    requires Supported(v)
    ensures Read(Encoded(v) + rest) == (AsReply(v), rest)
    decreases v, 0
  {
    hide Read, Header, Bulk, EncodedAll, ReadItems;
    match v
    case Text(a) => ReadsBulk(a, rest);
    case Number(n) => ReadsHeader(COLON, n, rest);
    case Nil => ReadsHeader(DOLLAR, -1, rest);
    case List(items) =>
      var after := EncodedAll(items) + rest;
      ReadsHeader(STAR, |items|, after);
      assert Encoded(v) + rest == Header(STAR, |items|) + after;
      ItemsReadBack(items, rest, []);
      assert [] + items == items;
  }

  lemma {:induction false} ItemsReadBack(vs: seq<Value>, rest: Bytes, before: seq<Value>)
    requires forall i | 0 <= i < |vs| :: Supported(vs[i])
    ensures ReadItems(EncodedAll(vs) + rest, |vs|, before) == (Got(List(before + vs)), rest)
    decreases vs, 1
  {
    hide Read, Encoded;
    if vs == [] {
      assert [] + rest == rest && before + [] == before;
    } else {
      var tail := EncodedAll(vs[1..]) + rest;
      assert EncodedAll(vs) + rest == Encoded(vs[0]) + tail;
      ReplyReadsBack(vs[0], tail);
      ItemsReadBack(vs[1..], rest, before + [vs[0]]);
      assert before + [vs[0]] + vs[1..] == before + vs;
    }
  }
}
