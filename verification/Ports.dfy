/** The port list of a destination: its text form, its parser and its meaning. */
module Ports {
  import opened Base

  datatype PortRange = Single(port: nat) | Span(low: nat, high: nat)
  {
    predicate Valid() {
      match this
      case Single(n) => 1 <= n <= 65535
      case Span(lo, hi) => 1 <= lo <= hi <= 65535
    }

    predicate Has(port: int) {
      match this
      case Single(n) => port == n
      case Span(lo, hi) => lo <= port <= hi
    }

    function Print(): string {
      match this
      case Single(n) => Itoa(n)
      case Span(lo, hi) => Itoa(lo) + "-" + Itoa(hi)
    }
  }

  // ---- decimal numbers -------------------------------------------------

  predicate IsDigit(c: char) {
    '0' <= c <= '9'
  }

  function Digit(d: nat): char
    requires d < 10
  {
    '0' + d as char
  }

  function Itoa(n: nat): string {
    if n < 10 then [Digit(n)] else Itoa(n / 10) + [Digit(n % 10)]
  }

  function Digits(s: string): Option<nat> {
    if s == [] then Some(0)
    else
      match Digits(s[..|s| - 1])
      case None => None
      case Some(n) =>
        var c := s[|s| - 1];
        if IsDigit(c) then Some(10 * n + (c as int - '0' as int)) else None
  }

  /** An optional sign and at least one digit; no other text is a number. */
  function Atoi(s: string): Option<int> {
    var signed := s != [] && (s[0] == '-' || s[0] == '+');
    var digits := if signed then s[1..] else s;
    if digits == [] then None
    else
      match Digits(digits)
      case None => None
      case Some(n) =>
        var value: int := n;
        Some(if signed && s[0] == '-' then -value else value)
  }

  lemma {:induction false} ItoaDigits(n: nat)
    ensures Itoa(n) != [] && Digits(Itoa(n)) == Some(n)
    ensures forall c :: c in Itoa(n) ==> IsDigit(c)
  {
    if n >= 10 {
      ItoaDigits(n / 10);
      var s := Itoa(n);
      assert s[..|s| - 1] == Itoa(n / 10);
    } else {
      var s := Itoa(n);
      assert s[..0] == [];
    }
  }

  lemma AtoiOfItoa(n: nat)
    ensures Atoi(Itoa(n)) == Some(n)
  {
    ItoaDigits(n);
    assert Itoa(n)[0] in Itoa(n);
  }

  // ---- splitting at separators -----------------------------------------

  function Split(s: string, sep: char): (parts: seq<string>)
    ensures |parts| >= 1
  {
    if s == [] then [[]]
    else
      var rest := Split(s[1..], sep);
      if s[0] == sep then [[]] + rest else [[s[0]] + rest[0]] + rest[1..]
  }

  function Join(parts: seq<string>, sep: char): string
    requires |parts| >= 1
  {
    if |parts| == 1 then parts[0] else parts[0] + [sep] + Join(parts[1..], sep)
  }

  lemma {:induction false} JoinOfSplit(s: string, sep: char)
    ensures Join(Split(s, sep), sep) == s
  {
    if s != [] {
      var rest := Split(s[1..], sep);
      JoinOfSplit(s[1..], sep);
      if s[0] == sep {
        assert Split(s, sep)[1..] == rest;
      } else {
        assert ([[s[0]] + rest[0]] + rest[1..])[1..] == rest[1..];
        assert s == [s[0]] + s[1..];
      }
    }
  }

  lemma {:induction false} SplitOfPrefix(head: string, tail: string, sep: char)
    requires sep !in head
    ensures Split(head + [sep] + tail, sep) == [head] + Split(tail, sep)
  {
    var whole := head + [sep] + tail;
    if head == [] {
      assert whole[1..] == tail;
    } else {
      assert whole[1..] == head[1..] + [sep] + tail;
      SplitOfPrefix(head[1..], tail, sep);
      assert head == [head[0]] + head[1..];
    }
  }

  lemma {:induction false} SplitWithoutSeparator(s: string, sep: char)
    requires sep !in s
    ensures Split(s, sep) == [s]
  {
    if s != [] {
      SplitWithoutSeparator(s[1..], sep);
      assert s == [s[0]] + s[1..];
    }
  }

  lemma {:induction false} SplitOfJoin(parts: seq<string>, sep: char)
    requires |parts| >= 1
    requires forall i :: 0 <= i < |parts| ==> sep !in parts[i]
    ensures Split(Join(parts, sep), sep) == parts
  {
    if |parts| == 1 {
      SplitWithoutSeparator(parts[0], sep);
    } else {
      SplitOfPrefix(parts[0], Join(parts[1..], sep), sep);
      SplitOfJoin(parts[1..], sep);
      assert parts == [parts[0]] + parts[1..];
    }
  }

  // ---- parsing ---------------------------------------------------------

  /** A bound is accepted when it is the canonical decimal text of 1..65535. */
  function ParseBound(s: string): Option<nat> {
    match Atoi(s)
    case None => None
    case Some(n) => if 1 <= n <= 65535 && Itoa(n) == s then Some(n) else None
  }

  function ParsePart(part: string): Option<PortRange> {
    var bounds := Split(part, '-');
    if |bounds| == 1 then
      match ParseBound(bounds[0])
      case None => None
      case Some(n) => Some(Single(n))
    else if |bounds| == 2 then
      match (ParseBound(bounds[0]), ParseBound(bounds[1]))
      case (Some(lo), Some(hi)) => if lo <= hi then Some(Span(lo, hi)) else None
      case _ => None
    else None
  }

  function ParseParts(parts: seq<string>): Option<seq<PortRange>> {
    if parts == [] then Some([])
    else
      match (ParsePart(parts[0]), ParseParts(parts[1..]))
      case (Some(item), Some(items)) => Some([item] + items)
      case _ => None
  }

  function ParsePorts(ports: string): Option<seq<PortRange>> {
    var parts := Split(ports, ',');
    if |parts| > 32 then None else ParseParts(parts)
  }

  function PrintAll(items: seq<PortRange>): (parts: seq<string>)
    ensures |parts| == |items|
  {
    if items == [] then [] else [items[0].Print()] + PrintAll(items[1..])
  }

  function PrintPorts(items: seq<PortRange>): string
    requires |items| >= 1
  {
    Join(PrintAll(items), ',')
  }

  predicate ValidList(items: seq<PortRange>) {
    1 <= |items| <= 32 && forall i :: 0 <= i < |items| ==> items[i].Valid()
  }

  /** The port is one the text names. */
  predicate Covers(ports: string, port: int) {
    exists item :: item in ListOf(ports) && item.Has(port)
  }

  /** The ports and ranges the text names, none if it is not a port list. */
  function ListOf(ports: string): seq<PortRange> {
    var list := ParsePorts(ports);
    if list.Some? then list.value else []
  }

  lemma BoundRoundTrip(n: nat)
    requires 1 <= n <= 65535
    ensures ParseBound(Itoa(n)) == Some(n)
    ensures '-' !in Itoa(n) && ',' !in Itoa(n)
  {
    AtoiOfItoa(n);
    ItoaDigits(n);
  }

  lemma PartRoundTrip(item: PortRange)
    requires item.Valid()
    ensures ParsePart(item.Print()) == Some(item)
    ensures ',' !in item.Print()
  {
    match item
    case Single(n) =>
      BoundRoundTrip(n);
      SplitWithoutSeparator(Itoa(n), '-');
    case Span(lo, hi) =>
      BoundRoundTrip(lo);
      BoundRoundTrip(hi);
      assert Itoa(lo) + "-" + Itoa(hi) == Itoa(lo) + ['-'] + Itoa(hi);
      SplitOfPrefix(Itoa(lo), Itoa(hi), '-');
      SplitWithoutSeparator(Itoa(hi), '-');
  }

  lemma {:induction false} PartsRoundTrip(items: seq<PortRange>)
    requires forall i :: 0 <= i < |items| ==> items[i].Valid()
    ensures ParseParts(PrintAll(items)) == Some(items)
    ensures forall i :: 0 <= i < |items| ==> ',' !in PrintAll(items)[i]
  {
    hide ParsePart, Itoa;
    if items != [] {
      PartRoundTrip(items[0]);
      PartsRoundTrip(items[1..]);
      assert PrintAll(items)[1..] == PrintAll(items[1..]);
      assert items == [items[0]] + items[1..];
    }
  }

  lemma PartPrintsBack(part: string)
    requires ParsePart(part).Some?
    ensures ParsePart(part).value.Valid() && ParsePart(part).value.Print() == part
  {
    JoinOfSplit(part, '-');
    var bounds := Split(part, '-');
    if |bounds| == 2 {
      assert Join(bounds, '-') == bounds[0] + ['-'] + Join(bounds[1..], '-');
      assert Join(bounds[1..], '-') == bounds[1];
    }
  }

  lemma {:induction false} PartsPrintBack(parts: seq<string>)
    requires ParseParts(parts).Some?
    ensures forall i :: 0 <= i < |ParseParts(parts).value| ==> ParseParts(parts).value[i].Valid()
    ensures PrintAll(ParseParts(parts).value) == parts
  {
    if parts != [] {
      PartPrintsBack(parts[0]);
      PartsPrintBack(parts[1..]);
      var items := ParseParts(parts[1..]).value;
      var all := [ParsePart(parts[0]).value] + items;
      assert all[1..] == items;
      assert parts == [parts[0]] + parts[1..];
    }
  }

  /** Printing what was parsed gives the text back. */
  lemma ParsePrints(ports: string)
    requires ParsePorts(ports).Some?
    ensures ValidList(ParsePorts(ports).value)
    ensures PrintPorts(ParsePorts(ports).value) == ports
  {
    PartsPrintBack(Split(ports, ','));
    JoinOfSplit(ports, ',');
  }

  /** Parsing what was printed gives the list back. */
  lemma PrintParses(items: seq<PortRange>)
    requires ValidList(items)
    ensures ParsePorts(PrintPorts(items)) == Some(items)
  {
    PartsRoundTrip(items);
    SplitOfJoin(PrintAll(items), ',');
  }

  /** A text is accepted exactly when it prints some list of 1 to 32 valid ports or ranges. */
  lemma AcceptedExactly(ports: string)
    ensures ParsePorts(ports).Some? <==> exists items :: ValidList(items) && ports == PrintPorts(items)
  {
    if ParsePorts(ports).Some? {
      ParsePrints(ports);
    }
    forall items | ValidList(items) && ports == PrintPorts(items) ensures ParsePorts(ports).Some? {
      PrintParses(items);
    }
  }

  /** A refused part refuses the whole list. */
  lemma {:induction false} RefusedPart(parts: seq<string>, k: nat)
    requires k < |parts| && ParsePart(parts[k]).None?
    ensures ParseParts(parts).None?
  {
    if k > 0 {
      RefusedPart(parts[1..], k - 1);
    }
  }

  lemma {:induction false} AcceptedParts(parts: seq<string>)
    requires forall k :: 0 <= k < |parts| ==> ParsePart(parts[k]).Some?
    ensures ParseParts(parts).Some?
  {
    if parts != [] {
      AcceptedParts(parts[1..]);
    }
  }

  /** The checking loop: every bound is canonical and none is below the one before it. */
  method CheckPorts(ports: string) returns (ok: bool)
    ensures ok <==> exists items :: ValidList(items) && ports == PrintPorts(items)
  {
    AcceptedExactly(ports);
    var parts := Split(ports, ',');
    if |parts| > 32 {
      return false;
    }
    for i := 0 to |parts|
      invariant forall k :: 0 <= k < i ==> ParsePart(parts[k]).Some?
    {
      var bounds := Split(parts[i], '-');
      if |bounds| > 2 {
        RefusedPart(parts, i);
        return false;
      }
      var last := 0;
      for j := 0 to |bounds|
        invariant j == 0 ==> last == 0
        invariant j >= 1 ==> ParseBound(bounds[0]).Some? && (j == 1 ==> ParseBound(bounds[0]) == Some(last))
        invariant j == 2 ==> ParsePart(parts[i]).Some?
      {
        var n := Atoi(bounds[j]);
        if n.None? || n.value < 1 || n.value > 65535 || n.value < last || Itoa(n.value) != bounds[j] {
          RefusedPart(parts, i);
          return false;
        }
        last := n.value;
      }
    }
    AcceptedParts(parts);
    return true;
  }
}
