/** The `vm-pool-ips` flag: a comma-separated list of addresses and address ranges. */
module PoolFlag {
  import opened Results
  import opened Addresses
  import opened PoolStates

  datatype Error = InvalidRange(entry: string) | EmptyRange(entry: string) | InvalidAddress(entry: string)

  // ----- string helpers of the Go library -----

  function Split(s: string, sep: char): (r: seq<string>)
    ensures r != []
  {
    if s == [] then [[]]
    else
      var rest := Split(s[1..], sep);
      if s[0] == sep then [[]] + rest else [[s[0]] + rest[0]] + rest[1..]
  }

  function Join(parts: seq<string>, sep: char): string {
    if parts == [] then [] else if |parts| == 1 then parts[0] else parts[0] + [sep] + Join(parts[1..], sep)
  }

  function TrimLeft(s: string): string {
    if s != [] && IsSpace(s[0]) then TrimLeft(s[1..]) else s
  }

  function TrimRight(s: string): string {
    if s != [] && IsSpace(s[|s| - 1]) then TrimRight(s[..|s| - 1]) else s
  }

  function TrimSpace(s: string): string {
    TrimRight(TrimLeft(s))
  }

  /** Index of the first occurrence of `c`, or the length. */
  function IndexOf(s: string, c: char): (i: nat)
    ensures i <= |s|
    ensures i < |s| ==> s[i] == c
    ensures c !in s[..i]
  {
    if s == [] || s[0] == c then 0
    else
      var i := IndexOf(s[1..], c);
      assert s[..i + 1] == [s[0]] + s[1..][..i];
      i + 1
  }

  // ----- what the parser computes -----

  /** The texts of at most `budget` addresses from `ip` through `end`. */
  function RangeTexts(codec: Codec, ip: Addr, end: Addr, budget: int): seq<string>
    decreases if budget < 0 then 0 else budget
  {
    if budget <= 0 then []
    else if ip == end then [codec.text(ip)]
    else [codec.text(ip)] + RangeTexts(codec, Next(ip), end, budget - 1)
  }

  function EntryTexts(codec: Codec, maxRange: int, raw: string): Result<seq<string>, Error> {
    var entry := TrimSpace(raw);
    var dash := IndexOf(entry, '-');
    if entry == [] then Ok([])
    else if dash < |entry| then
      var start, end := codec.parse(entry[..dash]), codec.parse(entry[dash + 1..]);
      if start.None? || end.None? then Err(InvalidRange(entry))
      else if !Before(start.value, end.value) then Err(EmptyRange(entry))
      else Ok(RangeTexts(codec, start.value, end.value, maxRange))
    else if codec.parse(entry).None? then Err(InvalidAddress(entry))
    else Ok([codec.text(codec.parse(entry).value)])
  }

  function AllTexts(codec: Codec, maxRange: int, entries: seq<string>): Result<seq<string>, Error> {
    if entries == [] then Ok([])
    else match EntryTexts(codec, maxRange, entries[0])
      case Err(e) => Err(e)
      case Ok(first) =>
        match AllTexts(codec, maxRange, entries[1..])
        case Err(e) => Err(e)
        case Ok(rest) => Ok(first + rest)
  }

  /** First occurrences only. */
  function Distinct(s: seq<string>): seq<string> {
    if s == [] then []
    else
      var r := Distinct(s[..|s| - 1]);
      if s[|s| - 1] in r then r else r + [s[|s| - 1]]
  }

  function ParsePool(codec: Codec, maxRange: int, value: string): Result<seq<string>, Error> {
    if value == [] then Ok([])
    else match AllTexts(codec, maxRange, Split(value, ','))
      case Err(e) => Err(e)
      case Ok(texts) => Ok(Distinct(texts))
  }

  function PrintPool(pool: seq<string>): string {
    Join(pool, ',')
  }

  // ----- the parser itself -----

  lemma {:induction false} AllTextsSnoc(codec: Codec, maxRange: int, entries: seq<string>, last: string)
    ensures AllTexts(codec, maxRange, entries + [last]) ==
            match AllTexts(codec, maxRange, entries)
            case Err(e) => Err(e)
            case Ok(texts) =>
              match EntryTexts(codec, maxRange, last)
              case Err(e) => Err(e)
              case Ok(more) => Ok(texts + more)
  {
    if entries == [] {
      assert [last][1..] == [];
      assert forall more: seq<string> :: more + [] == [] + more;
    } else {
      AllTextsSnoc(codec, maxRange, entries[1..], last);
      assert (entries + [last])[0] == entries[0] && (entries + [last])[1..] == entries[1..] + [last];
      var first, rest := EntryTexts(codec, maxRange, entries[0]), AllTexts(codec, maxRange, entries[1..]);
      var more := EntryTexts(codec, maxRange, last);
      if first.Ok? && rest.Ok? && more.Ok? {
        assert first.value + (rest.value + more.value) == first.value + rest.value + more.value;
      }
    }
  }

  lemma {:induction false} FirstErrorWins(codec: Codec, maxRange: int, entries: seq<string>, i: nat)
    requires i <= |entries| && AllTexts(codec, maxRange, entries[..i]).Err?
    ensures AllTexts(codec, maxRange, entries) == AllTexts(codec, maxRange, entries[..i])
    decreases |entries| - i
  {
    if i < |entries| {
      AllTextsSnoc(codec, maxRange, entries[..i], entries[i]);
      assert entries[..i + 1] == entries[..i] + [entries[i]];
      FirstErrorWins(codec, maxRange, entries, i + 1);
    } else {
      assert entries[..i] == entries;
    }
  }

  lemma {:induction false} RangeGoesOn(codec: Codec, texts: seq<string>, ip: Addr, end: Addr, budget: int)
    requires budget > 0
    ensures ip == end ==> texts + RangeTexts(codec, ip, end, budget) == texts + [codec.text(ip)]
    ensures ip != end ==>
              texts + RangeTexts(codec, ip, end, budget) == (texts + [codec.text(ip)]) + RangeTexts(codec, Next(ip), end, budget - 1)
  {
    if ip != end {
      var rest := RangeTexts(codec, Next(ip), end, budget - 1);
      assert texts + ([codec.text(ip)] + rest) == (texts + [codec.text(ip)]) + rest;
    }
  }

  method ExpandRange(codec: Codec, maxRange: int, start: Addr, end: Addr) returns (texts: seq<string>)
    ensures texts == RangeTexts(codec, start, end, maxRange)
  {
    texts := [];
    var ip, count := start, 0;
    while true
      invariant count >= 0
      invariant texts + RangeTexts(codec, ip, end, maxRange - count) == RangeTexts(codec, start, end, maxRange)
      decreases maxRange - count
    {
      count := count + 1;
      if count > maxRange {
        break;
      }
      RangeGoesOn(codec, texts, ip, end, maxRange - count + 1);
      texts := texts + [codec.text(ip)];
      if ip == end {
        break;
      }
      ip := Next(ip);
    }
  }

  /** One round of the first loop of `Set`. */
  method ParseEntry(codec: Codec, maxRange: int, raw: string) returns (r: Result<seq<string>, Error>)
    ensures r == EntryTexts(codec, maxRange, raw)
  {
    var entry := TrimSpace(raw);
    if entry == "" {
      return Ok([]);
    }
    var dash := IndexOf(entry, '-');
    if dash < |entry| {
      var start, end := codec.parse(entry[..dash]), codec.parse(entry[dash + 1..]);
      if start.None? || end.None? {
        return Err(InvalidRange(entry));
      }
      if !Before(start.value, end.value) {
        return Err(EmptyRange(entry));
      }
      var texts := ExpandRange(codec, maxRange, start.value, end.value);
      return Ok(texts);
    }
    var ip := codec.parse(entry);
    if ip.None? {
      return Err(InvalidAddress(entry));
    }
    return Ok([codec.text(ip.value)]);
  }

  method Set(codec: Codec, maxRange: int, value: string) returns (r: Result<seq<string>, Error>)
    ensures r == ParsePool(codec, maxRange, value)
  {
    if |value| == 0 {
      return Ok([]);
    }
    var entries := Split(value, ',');
    var allIPs: seq<string> := [];
    for i := 0 to |entries|
      invariant AllTexts(codec, maxRange, entries[..i]) == Ok(allIPs)
    {
      AllTextsSnoc(codec, maxRange, entries[..i], entries[i]);
      assert entries[..i + 1] == entries[..i] + [entries[i]];
      var texts := ParseEntry(codec, maxRange, entries[i]);
      if texts.Err? {
        FirstErrorWins(codec, maxRange, entries, i + 1);
        return Err(texts.error);
      }
      allIPs := allIPs + texts.value;
    }
    assert entries[..|entries|] == entries;
    var uniqueIPs := Unique(allIPs);
    return Ok(uniqueIPs);
  }

  /** The second loop of `Set`. */
  method Unique(allIPs: seq<string>) returns (uniqueIPs: seq<string>)
    ensures uniqueIPs == Distinct(allIPs)
  {
    var validIPs: set<string> := {};
    uniqueIPs := [];
    for i := 0 to |allIPs|
      invariant uniqueIPs == Distinct(allIPs[..i])
      invariant forall ip :: ip in validIPs <==> ip in uniqueIPs
    {
      assert allIPs[..i + 1][..i] == allIPs[..i];
      var ip := allIPs[i];
      if ip !in validIPs {
        validIPs := validIPs + {ip};
        uniqueIPs := uniqueIPs + [ip];
      }
    }
    assert allIPs[..|allIPs|] == allIPs;
  }

  // ----- first occurrences -----

  ghost predicate FirstAt(s: seq<string>, x: string, k: int) {
    0 <= k < |s| && s[k] == x && x !in s[..k]
  }

  /** `x` first occurs in `s` before `y` does. */
  ghost predicate FirstBefore(s: seq<string>, x: string, y: string) {
    exists a, b :: a < b && FirstAt(s, x, a) && FirstAt(s, y, b)
  }

  /** Parsing keeps each address once, at the place where it first occurs. */
  lemma {:induction false} DistinctKeepsFirstOccurrences(s: seq<string>)
    ensures var r := Distinct(s);
            && NoDuplicates(r)
            && (forall x :: x in r <==> x in s)
            && (forall i, j | 0 <= i < j < |r| :: FirstBefore(s, r[i], r[j]))
  {
    if s != [] {
      var n := |s| - 1;
      var t, last := s[..n], s[n];
      DistinctKeepsFirstOccurrences(t);
      var q, r := Distinct(t), Distinct(s);
      forall x, k | FirstAt(t, x, k) ensures FirstAt(s, x, k) {
        assert s[..k] == t[..k];
      }
      forall x ensures x in s <==> x in t || x == last {
        assert s == t + [last];
      }
      forall i, j | 0 <= i < j < |r| ensures FirstBefore(s, r[i], r[j]) {
        if j < |q| {
          var a, b :| a < b && FirstAt(t, q[i], a) && FirstAt(t, q[j], b);
          assert FirstAt(s, r[i], a) && FirstAt(s, r[j], b);
        } else {
          assert r[j] == last && FirstAt(s, last, n);
          assert q[i] in t;
          var a := FirstIndex(t, q[i]);
          assert FirstAt(s, r[i], a) && a < n;
        }
      }
    }
  }

  lemma {:induction false} FirstIndex(s: seq<string>, x: string) returns (k: nat)
    requires x in s
    ensures FirstAt(s, x, k)
  {
    if s[0] == x {
      k := 0;
    } else {
      k := FirstIndex(s[1..], x);
      assert s[..k + 1] == [s[0]] + s[1..][..k];
      k := k + 1;
    }
  }

  lemma {:induction false} DistinctOfDistinct(s: seq<string>)
    requires NoDuplicates(s)
    ensures Distinct(s) == s
  {
    if s != [] {
      DistinctOfDistinct(s[..|s| - 1]);
      assert s == s[..|s| - 1] + [s[|s| - 1]];
    }
  }

  // ----- ranges -----

  function Offset(a: Addr, k: nat): Addr {
    match a
    case V4(n) => V4(n + k)
    case V6(n) => V6(n + k)
    case Invalid(n) => Invalid(n + k)
  }

  function Least(a: int, b: int): int {
    if a < b then a else b
  }

  /** A same-family range contributes exactly its first min(length, limit) consecutive addresses. */
  lemma {:induction false} RangeIsConsecutive(codec: Codec, start: Addr, end: Addr, limit: int)
    requires Valid(start) && Valid(end) && BitLen(start) == BitLen(end) && start.n <= end.n
    ensures var texts := RangeTexts(codec, start, end, limit);
            && |texts| == Least(end.n - start.n + 1, if limit < 0 then 0 else limit)
            && forall k | 0 <= k < |texts| :: texts[k] == codec.text(Offset(start, k))
    decreases end.n - start.n
  {
    if limit > 0 && start != end {
      RangeIsConsecutive(codec, Next(start), end, limit - 1);
    }
  }

  /** A range from IPv4 to IPv6 runs off the end of IPv4 exactly when the limit lets it. */
  lemma {:induction false} RangeAcrossFamilies(codec: Codec, start: Addr, end: Addr, limit: int)
    requires Faithful(codec) && Valid(start) && start.V4? && end.V6?
    ensures INVALID_TEXT in RangeTexts(codec, start, end, limit) <==> limit > V4_COUNT - start.n
    decreases V4_COUNT - start.n
  {
    if limit > 0 {
      assert FaithfulFor(codec, start);
      assert codec.text(start) != INVALID_TEXT;
      var rest := RangeTexts(codec, Next(start), end, limit - 1);
      if start.n + 1 < V4_COUNT {
        RangeAcrossFamilies(codec, Next(start), end, limit - 1);
      } else {
        assert FaithfulFor(codec, Invalid(0));
        assert limit > 1 ==> rest[0] == INVALID_TEXT;
      }
    }
  }

  lemma RangeWithinFamily(codec: Codec, start: Addr, end: Addr, limit: int)
    requires Faithful(codec) && Valid(start) && Valid(end) && BitLen(start) == BitLen(end) && start.n <= end.n
    ensures INVALID_TEXT !in RangeTexts(codec, start, end, limit)
  {
    RangeIsConsecutive(codec, start, end, limit);
    var texts := RangeTexts(codec, start, end, limit);
    forall k | 0 <= k < |texts| ensures texts[k] != INVALID_TEXT {
      assert FaithfulFor(codec, Offset(start, k));
    }
  }

  // ----- printing and parsing again -----

  /** The text of some valid address, or of the invalid one. */
  ghost predicate Printed(codec: Codec, text: string) {
    text == INVALID_TEXT || exists a :: Valid(a) && text == codec.text(a)
  }

  lemma {:induction false} RangeTextsArePrinted(codec: Codec, ip: Addr, end: Addr, budget: int)
    requires Faithful(codec) && (Valid(ip) || ip.Invalid?)
    ensures forall t | t in RangeTexts(codec, ip, end, budget) :: Printed(codec, t)
    decreases if budget < 0 then 0 else budget
  {
    if budget > 0 {
      assert FaithfulFor(codec, ip);
      if ip != end {
        RangeTextsArePrinted(codec, Next(ip), end, budget - 1);
      }
    }
  }

  /** The entry is a range that leaves IPv4 within the limit. */
  ghost predicate Overruns(codec: Codec, maxRange: int, raw: string) {
    var entry := TrimSpace(raw);
    var dash := IndexOf(entry, '-');
    && dash < |entry|
    && var start, end := codec.parse(entry[..dash]), codec.parse(entry[dash + 1..]);
       && start.Some? && end.Some? && start.value.V4? && end.value.V6?
       && maxRange > V4_COUNT - start.value.n
  }

  lemma EntryOverrunsExactly(codec: Codec, maxRange: int, raw: string)
    requires Faithful(codec) && EntryTexts(codec, maxRange, raw).Ok?
    ensures INVALID_TEXT in EntryTexts(codec, maxRange, raw).value <==> Overruns(codec, maxRange, raw)
    ensures forall t | t in EntryTexts(codec, maxRange, raw).value :: Printed(codec, t)
  {
    var entry := TrimSpace(raw);
    var dash := IndexOf(entry, '-');
    if entry == [] {
    } else if dash < |entry| {
      var start, end := codec.parse(entry[..dash]).value, codec.parse(entry[dash + 1..]).value;
      RangeTextsArePrinted(codec, start, end, maxRange);
      if start.V4? && end.V6? {
        RangeAcrossFamilies(codec, start, end, maxRange);
      } else {
        RangeWithinFamily(codec, start, end, maxRange);
      }
    } else {
      assert FaithfulFor(codec, codec.parse(entry).value);
    }
  }

  lemma {:induction false} AllOverrunExactly(codec: Codec, maxRange: int, entries: seq<string>)
    requires Faithful(codec) && AllTexts(codec, maxRange, entries).Ok?
    ensures var texts := AllTexts(codec, maxRange, entries).value;
            && (INVALID_TEXT in texts <==> exists e :: e in entries && Overruns(codec, maxRange, e))
            && (forall t | t in texts :: Printed(codec, t))
  {
    if entries != [] {
      EntryOverrunsExactly(codec, maxRange, entries[0]);
      AllOverrunExactly(codec, maxRange, entries[1..]);
      assert forall e :: e in entries <==> e == entries[0] || e in entries[1..];
    }
  }

  lemma {:induction false} TrimLeftPlain(s: string)
    requires s != [] && !IsSpace(s[0]) && !IsSpace(s[|s| - 1])
    ensures TrimSpace(s) == s
  {
  }

  lemma {:induction false} PartsHaveNoSeparator(s: string, sep: char)
    ensures forall p | p in Split(s, sep) :: sep !in p
  {
    if s != [] {
      PartsHaveNoSeparator(s[1..], sep);
      var rest := Split(s[1..], sep);
      assert rest[0] in rest;
    }
  }

  lemma {:induction false} SplitPrefix(p: string, tail: string, sep: char)
    requires sep !in p
    ensures Split(p, sep) == [p]
    ensures Split(p + [sep] + tail, sep) == [p] + Split(tail, sep)
  {
    var s := p + [sep] + tail;
    if p == [] {
      assert s[1..] == tail;
    } else {
      SplitPrefix(p[1..], tail, sep);
      assert s[1..] == p[1..] + [sep] + tail;
      assert p == [p[0]] + p[1..];
    }
  }

  lemma {:induction false} SplitJoin(parts: seq<string>, sep: char)
    requires parts != [] && forall p | p in parts :: sep !in p
    ensures Split(Join(parts, sep), sep) == parts
  {
    if |parts| == 1 {
      SplitPrefix(parts[0], [], sep);
    } else {
      SplitJoin(parts[1..], sep);
      SplitPrefix(parts[0], Join(parts[1..], sep), sep);
      assert parts == [parts[0]] + parts[1..];
    }
  }

  /** A text without spaces at its ends, without dashes, and not parsed, is an invalid entry. */
  lemma {:induction false} UnparsedIsNoEntry(codec: Codec, maxRange: int, t: string)
    requires t != [] && !IsSpace(t[0]) && !IsSpace(t[|t| - 1]) && '-' !in t && codec.parse(t).None?
    ensures EntryTexts(codec, maxRange, t).Err?
  {
    TrimLeftPlain(t);
  }

  lemma {:induction false} InvalidTextLooks()
    ensures INVALID_TEXT != [] && !IsSpace(INVALID_TEXT[0]) && !IsSpace(INVALID_TEXT[|INVALID_TEXT| - 1])
    ensures '-' !in INVALID_TEXT && ',' !in INVALID_TEXT
  {
  }

  lemma {:induction false} InvalidTextIsNoEntry(codec: Codec, maxRange: int, t: string)
    requires t == INVALID_TEXT && codec.parse(t).None?
    ensures EntryTexts(codec, maxRange, t).Err? && ',' !in t
  {
    InvalidTextLooks();
    UnparsedIsNoEntry(codec, maxRange, t);
  }

  lemma PlainIsNoRange(t: string)
    requires Plain(t)
    ensures TrimSpace(t) == t && IndexOf(t, '-') == |t| && ',' !in t
  {
    assert t[0] in t && t[|t| - 1] in t;
    TrimLeftPlain(t);
    assert forall i | 0 <= i < |t| :: t[i] in t;
  }

  /** A printed address parses back to itself; the text of the invalid address does not parse. */
  lemma EntryOfPrinted(codec: Codec, maxRange: int, t: string)
    requires Faithful(codec) && Printed(codec, t)
    ensures if t == INVALID_TEXT then EntryTexts(codec, maxRange, t).Err? else EntryTexts(codec, maxRange, t) == Ok([t])
    ensures ',' !in t && t != []
  {
    if t == INVALID_TEXT {
      InvalidTextIsNoEntry(codec, maxRange, t);
    } else {
      var a :| Valid(a) && t == codec.text(a);
      assert FaithfulFor(codec, a);
      PlainIsNoRange(t);
    }
  }

  lemma {:induction false} AllTextsOfPrinted(codec: Codec, maxRange: int, pool: seq<string>)
    requires Faithful(codec) && forall t | t in pool :: Printed(codec, t)
    ensures if INVALID_TEXT in pool then AllTexts(codec, maxRange, pool).Err? else AllTexts(codec, maxRange, pool) == Ok(pool)
  {
    if pool != [] {
      assert pool[0] in pool;
      EntryOfPrinted(codec, maxRange, pool[0]);
      AllTextsOfPrinted(codec, maxRange, pool[1..]);
      assert pool == [pool[0]] + pool[1..];
    }
  }

  /** Every text of a parsed pool is that of an address. */
  lemma ParsedTextsArePrinted(codec: Codec, maxRange: int, value: string)
    requires Faithful(codec) && ParsePool(codec, maxRange, value).Ok?
    ensures forall t | t in ParsePool(codec, maxRange, value).value :: Printed(codec, t)
  {
    if value != [] {
      AllOverrunExactly(codec, maxRange, Split(value, ','));
      DistinctKeepsFirstOccurrences(AllTexts(codec, maxRange, Split(value, ',')).value);
    }
  }

  /**
   A parsed pool has no duplicates, and parsing its printed form gives it back, exactly when no
   entry was a range running past the last IPv4 address.
   */
  lemma ParsePrintExactly(codec: Codec, maxRange: int, value: string)
    requires Faithful(codec) && ParsePool(codec, maxRange, value).Ok?
    ensures var pool := ParsePool(codec, maxRange, value).value;
            && NoDuplicates(pool)
            && (ParsePool(codec, maxRange, PrintPool(pool)) == Ok(pool)
                <==> forall e | e in Split(value, ',') :: !Overruns(codec, maxRange, e))
  {
    var entries := Split(value, ',');
    if value == [] {
      assert entries == [[]];
    } else {
      var texts := AllTexts(codec, maxRange, entries).value;
      var pool := Distinct(texts);
      AllOverrunExactly(codec, maxRange, entries);
      DistinctKeepsFirstOccurrences(texts);
      AllTextsOfPrinted(codec, maxRange, pool);
      DistinctOfDistinct(pool);
      if pool != [] {
        forall t | t in pool ensures ',' !in t && t != [] {
          EntryOfPrinted(codec, maxRange, t);
        }
        SplitJoin(pool, ',');
        assert pool[0] in pool;
        assert PrintPool(pool) != [];
      }
    }
  }

  // ----- what a written list means -----

  /** An entry as a user writes it, with white space before and after. */
  datatype Item = Blank | One(a: Addr) | Range(first: Addr, last: Addr)

  datatype Entry = Entry(before: string, item: Item, after: string)

  predicate Spaces(s: string) {
    forall i | 0 <= i < |s| :: IsSpace(s[i])
  }

  predicate WellWritten(e: Entry) {
    && Spaces(e.before) && Spaces(e.after)
    && match e.item
       case Blank => true
       case One(a) => Valid(a)
       case Range(first, last) => Valid(first) && Valid(last)
  }

  function ItemText(codec: Codec, item: Item): string {
    match item
    case Blank => []
    case One(a) => codec.text(a)
    case Range(first, last) => codec.text(first) + "-" + codec.text(last)
  }

  function EntryText(codec: Codec, e: Entry): string {
    e.before + ItemText(codec, e.item) + e.after
  }

  /** A range must have at least two addresses. */
  predicate Ascends(item: Item) {
    item.Range? ==> BitLen(item.first) < BitLen(item.last) || (BitLen(item.first) == BitLen(item.last) && item.first.n < item.last.n)
  }

  /** The addresses that an item stands for; a range within a family is cut off at the limit. */
  function Denoted(codec: Codec, maxRange: int, item: Item): seq<string> {
    match item
    case Blank => []
    case One(a) => [codec.text(a)]
    case Range(first, last) =>
      if BitLen(first) == BitLen(last) && first.n <= last.n then
        seq(Least(last.n - first.n + 1, if maxRange < 0 then 0 else maxRange), k requires 0 <= k => codec.text(Offset(first, k)))
      else RangeTexts(codec, first, last, maxRange)
  }

  lemma {:induction false} TrimLeftSpaces(before: string, s: string)
    requires Spaces(before) && (s == [] || !IsSpace(s[0]))
    ensures TrimLeft(before + s) == s
  {
    if before == [] {
      assert before + s == s;
    } else {
      assert (before + s)[1..] == before[1..] + s;
      TrimLeftSpaces(before[1..], s);
    }
  }

  lemma {:induction false} TrimRightSpaces(s: string, after: string)
    requires Spaces(after) && (s == [] || !IsSpace(s[|s| - 1]))
    ensures TrimRight(s + after) == s
  {
    if after == [] {
      assert s + after == s;
    } else {
      var n := |after| - 1;
      assert (s + after)[..|s + after| - 1] == s + after[..n];
      TrimRightSpaces(s, after[..n]);
    }
  }

  lemma TrimPadding(before: string, s: string, after: string)
    requires Spaces(before) && Spaces(after) && (s == [] || (!IsSpace(s[0]) && !IsSpace(s[|s| - 1])))
    ensures TrimSpace(before + s + after) == s
  {
    if s == [] {
      assert before + s + after == (before + after) + [];
      TrimLeftSpaces(before + after, []);
    } else {
      assert before + s + after == before + (s + after);
      TrimLeftSpaces(before, s + after);
      TrimRightSpaces(s, after);
    }
  }

  lemma {:induction false} EntryMeaning(codec: Codec, maxRange: int, e: Entry)
    requires Faithful(codec) && WellWritten(e)
    ensures EntryTexts(codec, maxRange, EntryText(codec, e)) ==
            if Ascends(e.item) then Ok(Denoted(codec, maxRange, e.item)) else Err(EmptyRange(ItemText(codec, e.item)))
  {
    var t := ItemText(codec, e.item);
    match e.item
    case Blank => TrimPadding(e.before, [], e.after);
    case One(a) =>
      assert FaithfulFor(codec, a);
      assert t[0] in t && t[|t| - 1] in t;
      TrimPadding(e.before, t, e.after);
      PlainIsNoRange(t);
    case Range(first, last) => RangeMeaning(codec, maxRange, e);
  }

  lemma {:induction false} RangeMeaning(codec: Codec, maxRange: int, e: Entry)
    requires Faithful(codec) && WellWritten(e) && e.item.Range?
    ensures EntryTexts(codec, maxRange, EntryText(codec, e)) ==
            if Ascends(e.item) then Ok(Denoted(codec, maxRange, e.item)) else Err(EmptyRange(ItemText(codec, e.item)))
  {
    var a, b := codec.text(e.item.first), codec.text(e.item.last);
    var t := a + "-" + b;
    assert FaithfulFor(codec, e.item.first) && FaithfulFor(codec, e.item.last);
    assert a[0] in a && b[|b| - 1] in b && t[0] == a[0] && t[|t| - 1] == b[|b| - 1];
    TrimPadding(e.before, t, e.after);
    RangeText(a, b);
    if BitLen(e.item.first) == BitLen(e.item.last) && e.item.first.n <= e.item.last.n {
      RangeIsConsecutive(codec, e.item.first, e.item.last, maxRange);
      assert RangeTexts(codec, e.item.first, e.item.last, maxRange) == Denoted(codec, maxRange, e.item);
    }
  }

  function Texts(codec: Codec, entries: seq<Entry>): seq<string> {
    seq(|entries|, i requires 0 <= i < |entries| => EntryText(codec, entries[i]))
  }

  function AllDenoted(codec: Codec, maxRange: int, entries: seq<Entry>): seq<string> {
    if entries == [] then [] else Denoted(codec, maxRange, entries[0].item) + AllDenoted(codec, maxRange, entries[1..])
  }

  predicate AllAscend(entries: seq<Entry>) {
    forall i | 0 <= i < |entries| :: Ascends(entries[i].item)
  }

  lemma {:induction false} AllEntriesMean(codec: Codec, maxRange: int, entries: seq<Entry>)
    requires Faithful(codec) && forall i | 0 <= i < |entries| :: WellWritten(entries[i])
    ensures if AllAscend(entries) then AllTexts(codec, maxRange, Texts(codec, entries)) == Ok(AllDenoted(codec, maxRange, entries))
            else AllTexts(codec, maxRange, Texts(codec, entries)).Err?
  {
    if entries != [] {
      var texts := Texts(codec, entries);
      assert texts[1..] == Texts(codec, entries[1..]) && texts[0] == EntryText(codec, entries[0]);
      EntryMeaning(codec, maxRange, entries[0]);
      AllEntriesMean(codec, maxRange, entries[1..]);
      assert AllAscend(entries) <==> Ascends(entries[0].item) && AllAscend(entries[1..]) by {
        assert forall i | 0 < i < |entries| :: entries[i] == entries[1..][i - 1];
      }
    }
  }

  lemma EntryTextHasNoComma(codec: Codec, e: Entry)
    requires Faithful(codec) && WellWritten(e)
    ensures ',' !in EntryText(codec, e)
  {
    var t := ItemText(codec, e.item);
    assert ',' !in t by {
      if e.item.One? {
        assert FaithfulFor(codec, e.item.a);
      } else if e.item.Range? {
        assert FaithfulFor(codec, e.item.first) && FaithfulFor(codec, e.item.last);
      }
    }
  }

  /**
   A list as a user writes it, of addresses, ranges and blanks with white space around them, is accepted
   exactly if every range ascends, and is then read as the addresses it stands for, each once.
   */
  lemma ListMeaning(codec: Codec, maxRange: int, entries: seq<Entry>)
    requires Faithful(codec) && entries != [] && forall i | 0 <= i < |entries| :: WellWritten(entries[i])
    ensures var r := ParsePool(codec, maxRange, Join(Texts(codec, entries), ','));
            && (r.Ok? <==> AllAscend(entries))
            && (r.Ok? ==> r.value == Distinct(AllDenoted(codec, maxRange, entries)))
  {
    var texts := Texts(codec, entries);
    forall t | t in texts ensures ',' !in t {
      var i :| 0 <= i < |texts| && texts[i] == t;
      EntryTextHasNoComma(codec, entries[i]);
    }
    SplitJoin(texts, ',');
    AllEntriesMean(codec, maxRange, entries);
    if Join(texts, ',') == [] {
      EmptyList(codec, maxRange, texts);
    }
  }

  lemma EmptyList(codec: Codec, maxRange: int, texts: seq<string>)
    requires texts == Split([], ',')
    ensures AllTexts(codec, maxRange, texts) == Ok([]) && Distinct([]) == []
  {
    assert texts == [[]] && texts[1..] == [];
    assert EntryTexts(codec, maxRange, texts[0]) == Ok([]);
    var none: seq<string> := [];
    assert AllTexts(codec, maxRange, texts[1..]) == Ok(none) && none + none == none;
  }

  // ----- the overrun at an input -----

  lemma {:induction false} UnsplitText(s: string, sep: char)
    requires sep !in s
    ensures Split(s, sep) == [s]
  {
    if s != [] {
      UnsplitText(s[1..], sep);
      assert s[0] in s && [s[0]] + s[1..] == s;
    }
  }

  lemma {:induction false} DashAt(a: string, rest: string)
    requires '-' !in a
    ensures IndexOf(a + "-" + rest, '-') == |a|
  {
    if a != [] {
      assert a[0] in a && (a + "-" + rest)[1..] == a[1..] + "-" + rest;
      DashAt(a[1..], rest);
    }
  }

  /** A value that is one range of two plain texts. */
  lemma RangeText(a: string, b: string)
    requires Plain(a) && Plain(b)
    ensures var value := a + "-" + b;
            && Split(value, ',') == [value] && TrimSpace(value) == value && IndexOf(value, '-') == |a|
            && value[..|a|] == a && value[|a| + 1..] == b
  {
    var value := a + "-" + b;
    assert a[0] in a && b[|b| - 1] in b && value[0] == a[0] && value[|value| - 1] == b[|b| - 1];
    TrimLeftPlain(value);
    UnsplitText(value, ',');
    DashAt(a, b);
  }

  lemma RangeValue(codec: Codec, maxRange: int, a: string, b: string)
    requires Plain(a) && Plain(b) && codec.parse(a).Some? && codec.parse(b).Some?
    requires codec.parse(a).value.V4? && codec.parse(b).value.V6?
    ensures var value := a + "-" + b;
            && Split(value, ',') == [value] && EntryTexts(codec, maxRange, value).Ok?
            && (Overruns(codec, maxRange, value) <==> maxRange > V4_COUNT - codec.parse(a).value.n)
  {
    RangeText(a, b);
  }

  /** From the last IPv4 address to any IPv6 address: the pool holds the text of the invalid address, and cannot be parsed again. */
  lemma OverrunAtInput(codec: Codec, maxRange: int)
    requires Faithful(codec) && maxRange > 1
    requires codec.parse("255.255.255.255") == Some(V4(V4_COUNT - 1)) && codec.parse("::") == Some(V6(0))
    ensures var r := ParsePool(codec, maxRange, "255.255.255.255" + "-" + "::");
            r.Ok? && INVALID_TEXT in r.value && ParsePool(codec, maxRange, PrintPool(r.value)) != r
  {
    var a, b := "255.255.255.255", "::";
    var value := a + "-" + b;
    assert Plain(a) && Plain(b);
    RangeValue(codec, maxRange, a, b);
    var texts := EntryTexts(codec, maxRange, value).value;
    assert AllTexts(codec, maxRange, [value]) == Ok(texts) by {
      assert [value][1..] == [] && texts + [] == texts;
    }
    EntryOverrunsExactly(codec, maxRange, value);
    DistinctKeepsFirstOccurrences(texts);
    ParsePrintExactly(codec, maxRange, value);
  }
}
