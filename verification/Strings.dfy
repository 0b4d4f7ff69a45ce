/** The string operations of Rust's standard library that the service relies on. */
module Strings {
  import opened Wrappers

  /** One byte of file content. */
  type Byte = b: int | 0 <= b < 256

  type Bytes = seq<Byte>

  /** `value.split(separator)`: always at least one part, none containing the separator. */
  function Split(value: string, separator: char): (parts: seq<string>)
    ensures |parts| >= 1
    ensures forall part <- parts :: separator !in part
  {
    if value == "" then [""]
    else
      var rest := Split(value[1..], separator);
      if value[0] == separator then [""] + rest else [[value[0]] + rest[0]] + rest[1..]
  }

  /** The parts written one after another with the separator between them. */
  function Join(parts: seq<string>, separator: char): string
    requires |parts| >= 1
  {
    if |parts| == 1 then parts[0] else parts[0] + [separator] + Join(parts[1..], separator)
  }

  lemma {:induction false} JoinSplit(value: string, separator: char)
    ensures Join(Split(value, separator), separator) == value
  {
    if value != "" {
      JoinSplit(value[1..], separator);
      var rest := Split(value[1..], separator);
      if value[0] == separator {
        assert ([""] + rest)[1..] == rest;
      } else if |rest| > 1 {
        assert ([[value[0]] + rest[0]] + rest[1..])[1..] == rest[1..];
      }
    }
  }

  lemma {:induction false} SplitOfJoin(parts: seq<string>, separator: char)
    requires |parts| >= 1
    requires forall part <- parts :: separator !in part
    ensures Split(Join(parts, separator), separator) == parts
  {
    if |parts| == 1 {
      SplitPrepend(parts[0], "", separator);
      assert parts[0] + "" == parts[0];
    } else {
      var tail := Join(parts[1..], separator);
      SplitOfJoin(parts[1..], separator);
      SplitPrepend(parts[0], [separator] + tail, separator);
      assert parts[0] + ([separator] + tail) == Join(parts, separator);
      assert ([separator] + tail)[1..] == tail;
      assert Split([separator] + tail, separator) == [""] + parts[1..];
      assert parts[0] + "" == parts[0] && ([""] + parts[1..])[1..] == parts[1..];
      assert [parts[0]] + parts[1..] == parts;
    }
  }

  /** Text without the separator only lengthens the first part. */
  lemma {:induction false} SplitPrepend(head: string, value: string, separator: char)
    requires separator !in head
    ensures Split(head + value, separator)
         == [head + Split(value, separator)[0]] + Split(value, separator)[1..]
  {
    if head == "" {
      assert head + value == value;
      assert head + Split(value, separator)[0] == Split(value, separator)[0];
    } else {
      SplitPrepend(head[1..], value, separator);
      assert (head + value)[1..] == head[1..] + value;
      assert head[0] == (head + value)[0];
      var parts := Split(value, separator);
      assert [head[0]] + (head[1..] + parts[0]) == head + parts[0];
      assert ([head[1..] + parts[0]] + parts[1..])[1..] == parts[1..];
    }
  }

  lemma SplitWithout(value: string, separator: char)
    requires separator !in value
    ensures Split(value, separator) == [value]
  {
    SplitOfJoin([value], separator);
  }

  /** `value.split_once(separator)`: the text before and after the first separator. */
  function SplitOnce(value: string, separator: char): (pair: Option<(string, string)>)
    ensures pair.None? <==> separator !in value
    ensures pair.Some? ==> separator !in pair.value.0
    ensures pair.Some? ==> value == pair.value.0 + [separator] + pair.value.1
  {
    if value == "" then None
    else if value[0] == separator then Some(("", value[1..]))
    else
      match SplitOnce(value[1..], separator)
      case None => None
      case Some((before, after)) => Some(([value[0]] + before, after))
  }

  /** The first separator is where the pair is cut, so the pair is unique. */
  lemma {:induction false} SplitOnceUnique(before: string, after: string, separator: char)
    requires separator !in before
    ensures SplitOnce(before + [separator] + after, separator) == Some((before, after))
  {
    var value := before + [separator] + after;
    if before == "" {
      assert value == [separator] + after;
    } else {
      SplitOnceUnique(before[1..], after, separator);
      assert value[1..] == before[1..] + [separator] + after;
      assert [before[0]] + before[1..] == before;
    }
  }

  /** `value.rsplit_once(separator)`: the text before and after the last separator. */
  function RSplitOnce(value: string, separator: char): (pair: Option<(string, string)>)
    ensures pair.None? <==> separator !in value
    ensures pair.Some? ==> separator !in pair.value.1
    ensures pair.Some? ==> value == pair.value.0 + [separator] + pair.value.1
  {
    if value == "" then None
    else
      var last := |value| - 1;
      if value[last] == separator then Some((value[..last], ""))
      else
        match RSplitOnce(value[..last], separator)
        case None => None
        case Some((before, after)) => Some((before, after + [value[last]]))
  }

  /** A byte's ASCII upper-case letter becomes lower case; everything else is kept. */
  function AsciiLower(c: char): char {
    if 'A' <= c <= 'Z' then (c as int + 32) as char else c
  }

  function AsciiLowerAll(value: string): (lower: string)
    ensures |lower| == |value|
  {
    seq(|value|, i requires 0 <= i < |value| => AsciiLower(value[i]))
  }

  /** The UTF-8 encoding of one scalar value (RFC 3629, section 3). */
  function EncodeChar(c: char): (bytes: Bytes)
    ensures 1 <= |bytes| <= 4
  {
    var n := c as int;
    if n < 0x80 then [n]
    else if n < 0x800 then [0xC0 + n / 0x40, 0x80 + n % 0x40]
    else if n < 0x10000 then [0xE0 + n / 0x1000, 0x80 + n / 0x40 % 0x40, 0x80 + n % 0x40]
    else [0xF0 + n / 0x40000, 0x80 + n / 0x1000 % 0x40, 0x80 + n / 0x40 % 0x40, 0x80 + n % 0x40]
  }

  function Utf8(value: string): Bytes {
    if value == "" then [] else EncodeChar(value[0]) + Utf8(value[1..])
  }
}
