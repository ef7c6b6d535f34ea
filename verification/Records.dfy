/**
 The length-prefixed records of a per-issue ledger file: `%% op len`, a
 newline, `len` bytes of payload, a newline (`push_op`, `apply_records`,
 `legacy_logbook` and `skip_non_record`, `crates/vissue-core/src/ledger.rs`).
 */
module Records {
  import opened Base
  import opened Text
  import opened Issue
  import opened MergeSets
  import opened Utf8
  import LogLine

  datatype Record = Record(op: string, payload: string)

  // ---- decimal lengths ----

  function Digit(n: nat): char
    requires n < 10
  {
    ('0' as int + n) as char
  }

  predicate IsDecimal(s: string) {
    s != "" && forall i :: 0 <= i < |s| ==> '0' <= s[i] <= '9'
  }

  function Decimal(n: nat): (s: string)
    ensures IsDecimal(s)
  {
    if n < 10 then [Digit(n)] else Decimal(n / 10) + [Digit(n % 10)]
  }

  function DecimalValue(s: string): nat
    requires forall i :: 0 <= i < |s| ==> '0' <= s[i] <= '9'
  {
    if s == "" then 0 else 10 * DecimalValue(s[..|s| - 1]) + (s[|s| - 1] as int - '0' as int)
  }

  /// `str::parse::<usize>`: an optional plus sign and digits. A number past the
  /// word size is no number there and a length no text has here, so the reader
  /// stops at it either way.
  function ParseUsize(s: string): Option<nat> {
    var digits := if "+" <= s then s[1..] else s;
    if IsDecimal(digits) then Some(DecimalValue(digits)) else None
  }

  lemma {:induction false} DecimalReadsBack(n: nat)
    ensures DecimalValue(Decimal(n)) == n
  {
    if n >= 10 {
      DecimalReadsBack(n / 10);
      var s := Decimal(n / 10) + [Digit(n % 10)];
      assert s[..|s| - 1] == Decimal(n / 10);
    }
  }

  lemma ParseDecimal(n: nat)
    ensures ParseUsize(Decimal(n)) == Some(n)
  {
    DecimalReadsBack(n);
    assert '0' <= Decimal(n)[0] <= '9';
  }

  // ---- writing ----

  function Header(r: Record): string {
    "%% " + r.op + " " + Decimal(|r.payload|)
  }

  function EncodeOne(r: Record): string {
    Header(r) + "\n" + r.payload + "\n"
  }

  function Encode(rs: seq<Record>): string {
    if rs == [] then "" else EncodeOne(rs[0]) + Encode(rs[1..])
  }

  /// A record as it stands in a file.
  lemma WireText()
    ensures EncodeOne(Record("state", "DONE")) == "%% state 4\nDONE\n"
  {
    assert Decimal(4) == "4";
    assert "%% " + "state" + " " + "4" == "%% state 4";
  }

  /// A record the writer can be asked for: its op is one word.
  predicate Writable(r: Record) {
    IsToken(r.op)
  }

  predicate AllWritable(rs: seq<Record>) {
    forall i :: 0 <= i < |rs| ==> Writable(rs[i])
  }

  lemma {:induction false} EncodeConcat(rs: seq<Record>, ts: seq<Record>)
    ensures Encode(rs + ts) == Encode(rs) + Encode(ts)
  {
    hide EncodeOne;
    if rs == [] {
      assert rs + ts == ts;
    } else {
      EncodeConcat(rs[1..], ts);
      assert (rs + ts)[1..] == rs[1..] + ts && (rs + ts)[0] == rs[0];
      assert Encode(rs + ts) == EncodeOne(rs[0]) + (Encode(rs[1..]) + Encode(ts));
    }
  }

  // ---- reading ----

  datatype Item =
    | Rec(op: string, payload: string, text: string)
    | LegacyDrawer(entries: seq<LogEntry>)

  function DropNewlines(s: string): (r: string)
    ensures |r| <= |s|
    ensures r == "" || (r[0] != '\n' && r[0] != '\r')
  {
    if s != "" && (s[0] == '\n' || s[0] == '\r') then DropNewlines(s[1..]) else s
  }

  /// The first line and its newline.
  function LineEnd(s: string): (n: nat)
    ensures n <= |s|
    ensures s != "" ==> n > 0
  {
    var i := FirstIndex(s, '\n');
    if i < |s| then i + 1 else |s|
  }

  /// The entries and the length of a drawer whose opening line is already
  /// taken: `None` when it never meets `:END:`.
  function DrawerRest(s: string): (r: Option<(seq<LogEntry>, nat)>)
    ensures r.Some? ==> r.value.1 <= |s|
    decreases |s|
  {
    if s == "" then None
    else
      var n := LineEnd(s);
      var line := s[..n];
      if SameNoCase(Trim(line), ":END:") then Some(([], n))
      else
        match DrawerRest(s[n..])
        case None => None
        case Some((entries, m)) =>
          var bare := Bare(line);
          Some(((if Trim(bare) == "" then [] else [LogLine.Parse(bare)]) + entries, n + m))
  }

  /// A closed `:LOGBOOK:` drawer at the front: its entries and its length.
  function LegacyAt(s: string): (r: Option<(seq<LogEntry>, nat)>)
    requires s != ""
    ensures r.Some? ==> 0 < r.value.1 <= |s|
  {
    var n := LineEnd(s);
    if !SameNoCase(Trim(s[..n]), ":LOGBOOK:") then None
    else
      match DrawerRest(s[n..])
      case None => None
      case Some((entries, m)) => Some((entries, n + m))
  }

  /// The record at the front of a text that starts with `%% `, and its
  /// length: `None` when the text ends before the record does, or its header
  /// is not one.
  function RecordAt(s: string): (r: Option<(Item, nat)>)
    ensures r.Some? ==> 0 < r.value.1 <= |s|
  {
    var headerEnd := FirstIndex(s, '\n');
    if headerEnd == |s| || headerEnd < 3 then None
    else
      var parts := SplitSpace(s[3..headerEnd]);
      if |parts| < 2 then None
      else
        match ParseUsize(parts[1])
        case None => None
        case Some(len) => PayloadAt(s, headerEnd, parts[0], len)
  }

  /// The record whose header line ends at `headerEnd`.
  function PayloadAt(s: string, headerEnd: nat, op: string, len: nat): (r: Option<(Item, nat)>)
    requires headerEnd < |s|
    ensures r.Some? ==> headerEnd < r.value.1 <= |s|
  {
    var payloadEnd := headerEnd + 1 + len;
    if payloadEnd > |s| then None
    else
      var end := if payloadEnd < |s| && s[payloadEnd] == '\n' then payloadEnd + 1 else payloadEnd;
      Some((Rec(op, s[headerEnd + 1..payloadEnd], s[..end]), end))
  }

  /// What a log holds, in order.
  function Items(log: string): seq<Item>
    decreases |log|
  {
    var s := DropNewlines(log);
    if s == "" then []
    else if "%% " <= s then
      match RecordAt(s)
      case None => []
      case Some((item, n)) => [item] + Items(s[n..])
    else
      match LegacyAt(s)
      case Some((entries, n)) => [LegacyDrawer(entries)] + Items(s[n..])
      case None => Items(s[LineEnd(s)..])
  }

  function AsItem(r: Record): Item {
    Rec(r.op, r.payload, EncodeOne(r))
  }

  function AsItems(rs: seq<Record>): seq<Item> {
    seq(|rs|, i requires 0 <= i < |rs| => AsItem(rs[i]))
  }

  // ---- framing is unambiguous ----

  lemma TwoWords(op: string, n: string)
    requires IsToken(op) && IsToken(n)
    ensures SplitSpace(op + " " + n) == [op, n]
  {
    assert JoinSpace([op, n]) == op + " " + n;
    SplitJoinSpace([op, n]);
  }

  lemma DecimalIsToken(n: nat)
    ensures IsToken(Decimal(n)) && '\n' !in Decimal(n)
  {
    var s := Decimal(n);
    forall i | 0 <= i < |s| ensures !IsSpace(s[i]) && s[i] != '\n' {}
  }

  /// The header line of a written record, and where it ends.
  lemma HeaderRead(r: Record, rest: string)
    requires Writable(r)
    ensures var s := Header(r) + "\n" + rest;
      && "%% " <= s
      && FirstIndex(s, '\n') == |Header(r)|
      && SplitSpace(s[3..|Header(r)|]) == [r.op, Decimal(|r.payload|)]
      && DropNewlines(s) == s
  {
    var s := Header(r) + "\n" + rest;
    hide SplitSpace, IsToken, Decimal;
    assert s[0] == '%' && s[1] == '%' && s[2] == ' ';
    DecimalIsToken(|r.payload|);
    OpHasNoNewline(r.op);
    assert '\n' !in Header(r);
    FirstIndexAt(Header(r), '\n', rest);
    assert s == Header(r) + ['\n'] + rest;
    assert s[3..|Header(r)|] == r.op + " " + Decimal(|r.payload|);
    TwoWords(r.op, Decimal(|r.payload|));
  }

  lemma OpHasNoNewline(op: string)
    requires IsToken(op)
    ensures '\n' !in op
  {
    forall i | 0 <= i < |op| ensures op[i] != '\n' {}
  }

  lemma PayloadRead(h: string, op: string, payload: string, rest: string)
    ensures PayloadAt(h + "\n" + (payload + "\n" + rest), |h|, op, |payload|)
         == Some((Rec(op, payload, h + "\n" + payload + "\n"), |h| + |payload| + 2))
  {
    var s := h + "\n" + (payload + "\n" + rest);
    var payloadEnd := |h| + 1 + |payload|;
    assert s[|h| + 1..payloadEnd] == payload;
    assert s[payloadEnd] == '\n';
    assert s[..payloadEnd + 1] == h + "\n" + payload + "\n";
  }

  /// A written record, whatever follows it, is read back whole.
  lemma RecordReadsBack(r: Record, rest: string)
    requires Writable(r)
    ensures RecordAt(EncodeOne(r) + rest) == Some((AsItem(r), |EncodeOne(r)|))
    ensures "%% " <= EncodeOne(r) + rest
    ensures DropNewlines(EncodeOne(r) + rest) == EncodeOne(r) + rest
  {
    var tail := r.payload + "\n" + rest;
    HeaderRead(r, tail);
    HeaderLongEnough(r);
    hide RecordAt, PayloadAt, SplitSpace, IsToken, Decimal, Header, DropNewlines, FirstIndex;
    assert EncodeOne(r) + rest == Header(r) + "\n" + tail;
    HeaderDecides(Header(r) + "\n" + tail, |Header(r)|, r.op, |r.payload|);
    PayloadRead(Header(r), r.op, r.payload, rest);
  }

  lemma HeaderDecides(s: string, headerEnd: nat, op: string, len: nat)
    requires 3 <= headerEnd < |s| && FirstIndex(s, '\n') == headerEnd
    requires SplitSpace(s[3..headerEnd]) == [op, Decimal(len)]
    ensures RecordAt(s) == PayloadAt(s, headerEnd, op, len)
  {
    hide SplitSpace, Decimal, ParseUsize, FirstIndex;
    ParseDecimal(len);
  }

  lemma HeaderLongEnough(r: Record)
    ensures |Header(r)| >= 3
  {
  }

  lemma FirstRecordRead(r: Record, tail: string)
    requires Writable(r)
    ensures Items(EncodeOne(r) + tail) == [AsItem(r)] + Items(tail)
  {
    RecordReadsBack(r, tail);
    EncodeOneNotEmpty(r);
    hide RecordAt, DropNewlines, EncodeOne, LegacyAt, Writable;
    var s := EncodeOne(r) + tail;
    assert s[|EncodeOne(r)|..] == tail;
  }

  /**
   Reading a concatenation of written records gives exactly those records,
   whatever bytes their payloads hold, and leaves what follows to be read.
   */
  lemma {:induction false} RecordsReadBack(rs: seq<Record>, rest: string)
    requires AllWritable(rs)
    ensures Items(Encode(rs) + rest) == AsItems(rs) + Items(rest)
    decreases |rs|
  {
    hide Items, EncodeOne;
    if rs == [] {
      assert Encode(rs) + rest == rest;
    } else {
      var tail := Encode(rs[1..]) + rest;
      assert Encode(rs) + rest == EncodeOne(rs[0]) + tail;
      FirstRecordRead(rs[0], tail);
      RecordsReadBack(rs[1..], rest);
      assert AsItems(rs) == [AsItem(rs[0])] + AsItems(rs[1..]);
      assert AsItems(rs) + Items(rest) == [AsItem(rs[0])] + (AsItems(rs[1..]) + Items(rest));
    }
  }

  lemma EncodeOneNotEmpty(r: Record)
    ensures EncodeOne(r) != ""
  {
  }

  // ---- a torn tail ----

  function OpsOf(items: seq<Item>): seq<Record> {
    if items == [] then []
    else (match items[0] case Rec(op, payload, _) => [Record(op, payload)] case LegacyDrawer(_) => []) + OpsOf(items[1..])
  }

  lemma {:induction false} OpsOfItems(rs: seq<Record>)
    ensures OpsOf(AsItems(rs)) == rs
  {
    if rs != [] {
      OpsOfItems(rs[1..]);
      assert AsItems(rs)[1..] == AsItems(rs[1..]);
    }
  }

  /// A proper front of a written record reads as nothing, unless all it lacks
  /// is the last newline.
  lemma TornRecord(r: Record, p: string)
    requires Writable(r) && p <= EncodeOne(r) && |p| < |EncodeOne(r)|
    ensures OpsOf(Items(p)) == if |p| == |EncodeOne(r)| - 1 then [r] else []
  {
    hide SplitSpace, IsToken, Decimal, DropNewlines, RecordAt, LegacyAt, Items, FirstIndex, OpsOf;
    assert OpsOf([]) == [] by { OpsOfNothing(); }
    var whole := EncodeOne(r);
    var h := Header(r);
    HeaderRead(r, r.payload + "\n");
    assert whole == h + "\n" + (r.payload + "\n");
    HeaderLongEnough(r);
    if |p| < 3 {
      TornStart(p, whole);
    } else {
      assert p[0] == whole[0] && p[1] == whole[1] && p[2] == whole[2];
      StaysWhole(p);
      if |p| <= |h| {
        TornHeader(p, whole, |h|);
      } else {
        FrontHeader(p, whole, |h|);
        assert whole[3..|h|] == h[3..];
        TornPayload(r, p);
      }
    }
  }

  lemma OpsOfNothing()
    ensures OpsOf([]) == []
  {
  }

  lemma StaysWhole(p: string)
    requires |p| >= 3 && p[0] == '%' && p[1] == '%' && p[2] == ' '
    ensures "%% " <= p && DropNewlines(p) == p
  {
  }

  lemma TornHeader(p: string, whole: string, n: nat)
    requires p <= whole && 3 <= |p| <= n && FirstIndex(whole, '\n') == n
    requires "%% " <= p && DropNewlines(p) == p
    ensures Items(p) == []
  {
    FirstIndexBefore(whole, '\n');
    forall i | 0 <= i < |p| ensures p[i] != '\n' { assert p[i] == whole[i]; }
    FirstIndexNone(p, '\n');
    assert RecordAt(p) == None;
  }

  lemma TornStart(p: string, whole: string)
    requires p <= whole && |p| < 3 && "%% " <= whole
    ensures Items(p) == []
  {
    if p != "" {
      assert p[0] == whole[0] == '%';
      if |p| == 2 { assert p[1] == whole[1] == '%'; }
      assert p == "%" || p == "%%";
      assert !("%% " <= p);
      assert LineEnd(p) == |p| by {
        assert FirstIndex(p, '\n') == |p| by { FirstIndexNone(p, '\n'); }
      }
      assert p[..|p|] == p;
      TrimNothing(p);
      assert !SameNoCase(p, ":LOGBOOK:");
      assert DropNewlines(p) == p;
      assert p[|p|..] == "";
      assert Items("") == [];
    }
  }

  lemma {:induction false} FirstIndexBefore(s: string, c: char)
    ensures forall i :: 0 <= i < FirstIndex(s, c) ==> s[i] != c
    ensures FirstIndex(s, c) < |s| ==> s[FirstIndex(s, c)] == c
  {
    if s != "" && s[0] != c {
      FirstIndexBefore(s[1..], c);
    }
  }

  lemma {:induction false} FirstIndexNone(s: string, c: char)
    requires c !in s
    ensures FirstIndex(s, c) == |s|
  {
    if s != "" {
      FirstIndexNone(s[1..], c);
    }
  }

  lemma FrontHeader(p: string, whole: string, n: nat)
    requires p <= whole && n < |p| && FirstIndex(whole, '\n') == n >= 3
    ensures FirstIndex(p, '\n') == n && p[3..n] == whole[3..n]
  {
    FirstIndexBefore(whole, '\n');
    assert '\n' !in p[..n] by {
      forall i | 0 <= i < n ensures p[..n][i] != '\n' { assert p[i] == whole[i]; }
    }
    assert p[n] == whole[n];
    assert p == p[..n] + ['\n'] + p[n + 1..];
    FirstIndexAt(p[..n], '\n', p[n + 1..]);
  }

  lemma PayloadTorn(p: string, h: string, op: string, payload: string)
    requires p <= h + "\n" + payload + "\n" && |h| < |p| < |h| + |payload| + 2
    ensures PayloadAt(p, |h|, op, |payload|) == if |p| == |h| + 1 + |payload| then Some((Rec(op, payload, p), |p|)) else None
  {
    if |p| == |h| + 1 + |payload| {
      assert p == h + "\n" + payload;
      assert p[|h| + 1..|p|] == payload && p[..|p|] == p;
    }
  }

  /// The payload is cut short, or all there but for the newline after it.
  lemma TornPayload(r: Record, p: string)
    requires Writable(r) && p <= EncodeOne(r) && |Header(r)| < |p| < |EncodeOne(r)|
    requires "%% " <= p && DropNewlines(p) == p && |Header(r)| >= 3
    requires FirstIndex(p, '\n') == |Header(r)|
    requires SplitSpace(p[3..|Header(r)|]) == [r.op, Decimal(|r.payload|)]
    ensures OpsOf(Items(p)) == if |p| == |EncodeOne(r)| - 1 then [r] else []
  {
    HeaderDecides(p, |Header(r)|, r.op, |r.payload|);
    PayloadTorn(p, Header(r), r.op, r.payload);
    hide SplitSpace, IsToken, Decimal, Header, DropNewlines, RecordAt, FirstIndex, LegacyAt, PayloadAt;
    if |p| == |EncodeOne(r)| - 1 {
      assert p[|p|..] == "";
      NothingToRead();
      assert Items(p) == [Rec(r.op, r.payload, p)] + [];
    } else {
      assert RecordAt(p) == None;
    }
  }

  lemma NothingToRead()
    ensures Items("") == []
  {
  }

  /// How many records have their whole payload in the first `n` bytes.
  function Whole(rs: seq<Record>, n: nat): (k: nat)
    ensures k <= |rs|
    decreases |rs|
  {
    if rs == [] || n < |EncodeOne(rs[0])| - 1 then 0
    else if n == |EncodeOne(rs[0])| - 1 then 1
    else 1 + Whole(rs[1..], n - |EncodeOne(rs[0])|)
  }

  /// The bytes of a log cut anywhere hold the records whose payload is whole
  /// before the cut, and nothing else.
  lemma {:induction false} TornBytes(rs: seq<Record>, n: nat)
    requires AllWritable(rs) && n <= |Encode(rs)|
    ensures OpsOf(Items(Encode(rs)[..n])) == rs[..Whole(rs, n)]
    decreases |rs|
  {
    hide EncodeOne, RecordAt, LegacyAt, DropNewlines;
    if rs == [] {
      NothingToRead();
    } else {
      var one := EncodeOne(rs[0]);
      var p := Encode(rs)[..n];
      EncodeOneNotEmpty(rs[0]);
      if n < |one| {
        assert p == one[..n];
        TornRecord(rs[0], p);
        assert rs[..1] == [rs[0]];
      } else {
        var rest := Encode(rs[1..])[..n - |one|];
        assert p == one + rest;
        TornBytes(rs[1..], n - |one|);
        FirstRecordRead(rs[0], rest);
        hide Items, Encode;
        assert Items(p)[1..] == Items(rest);
        assert rs[..Whole(rs, n)] == [rs[0]] + rs[1..][..Whole(rs[1..], n - |one|)];
      }
    }
  }

  // ---- bytes that are no text ----

  predicate PayloadsAreText(items: seq<Item>) {
    forall i :: 0 <= i < |items| && items[i].Rec? ==> IsText(items[i].payload)
  }

  /// What is read of a log: nothing of a file that is not text, nor of one that
  /// has a payload that is not.
  function ReadLog(log: string): Option<seq<Item>> {
    if IsText(log) && PayloadsAreText(Items(log)) then Some(Items(log)) else None
  }

  /// Records of strings.
  predicate TextRecords(rs: seq<Record>) {
    forall i :: 0 <= i < |rs| ==> IsText(rs[i].op) && IsText(rs[i].payload)
  }

  lemma LogRead(s: string)
    ensures ReadLog(s).Some? <==> IsText(s) && PayloadsAreText(Items(s))
    ensures ReadLog(s).Some? ==> ReadLog(s).value == Items(s)
  {
    hide Items, IsText, PayloadsAreText;
  }

  lemma DecimalIsText(n: nat)
    ensures IsText(Decimal(n))
  {
    AsciiIsText(Decimal(n));
  }

  lemma HeaderIsText(r: Record)
    requires IsText(r.op)
    ensures IsText(Header(r))
  {
    AsciiIsText("%% ");
    AsciiIsText(" ");
    DecimalIsText(|r.payload|);
    hide IsText, Decimal;
    TextConcat("%% ", r.op);
    TextConcat("%% " + r.op, " ");
    TextConcat("%% " + r.op + " ", Decimal(|r.payload|));
  }

  lemma EncodedOneIsText(r: Record)
    requires IsText(r.op) && IsText(r.payload)
    ensures IsText(EncodeOne(r))
  {
    HeaderIsText(r);
    AsciiIsText("\n");
    hide IsText, Header;
    TextConcat(Header(r), "\n");
    TextConcat(Header(r) + "\n", r.payload);
    TextConcat(Header(r) + "\n" + r.payload, "\n");
  }

  lemma {:induction false} EncodedIsText(rs: seq<Record>)
    requires TextRecords(rs)
    ensures IsText(Encode(rs))
  {
    hide EncodeOne;
    if rs != [] {
      EncodedOneIsText(rs[0]);
      EncodedIsText(rs[1..]);
      TextConcat(EncodeOne(rs[0]), Encode(rs[1..]));
    }
  }

  lemma FirstPayloadText(item: Item, rest: seq<Item>)
    ensures PayloadsAreText([item] + rest) <==> (item.Rec? ==> IsText(item.payload)) && PayloadsAreText(rest)
  {
    hide IsText;
    var all := [item] + rest;
    if PayloadsAreText(all) {
      forall i | 0 <= i < |rest| && rest[i].Rec? ensures IsText(rest[i].payload) { assert all[i + 1] == rest[i]; }
      assert all[0] == item;
    }
  }

  lemma FirstOpText(items: seq<Item>)
    requires items != [] && TextRecords(OpsOf(items))
    ensures (items[0].Rec? ==> IsText(items[0].payload)) && TextRecords(OpsOf(items[1..]))
  {
    hide IsText;
    var (ops, rest) := (OpsOf(items), OpsOf(items[1..]));
    var k := if items[0].Rec? then 1 else 0;
    assert k == 1 ==> ops[0].payload == items[0].payload;
    forall i | 0 <= i < |rest| ensures IsText(rest[i].op) && IsText(rest[i].payload) { assert ops[i + k] == rest[i]; }
  }

  lemma {:induction false} OpsAreText(items: seq<Item>)
    requires TextRecords(OpsOf(items))
    ensures PayloadsAreText(items)
  {
    hide OpsOf, TextRecords;
    if items != [] {
      FirstOpText(items);
      OpsAreText(items[1..]);
      FirstPayloadText(items[0], items[1..]);
      assert [items[0]] + items[1..] == items;
    }
  }

  /**
   A log cut anywhere, as an interrupted append leaves it, is read exactly when
   it is not cut inside a character: then it reads as the records whose payload
   is whole before the cut.
   */
  lemma TornTail(rs: seq<Record>, n: nat)
    requires AllWritable(rs) && TextRecords(rs) && n <= |Encode(rs)|
    ensures var log := ReadLog(Encode(rs)[..n]);
      && (log.Some? <==> n == |Encode(rs)| || !IsContinuation(Encode(rs)[n]))
      && (log.Some? ==> OpsOf(log.value) == rs[..Whole(rs, n)])
  {
    hide Items, OpsOf, Encode, IsText, Whole, PayloadsAreText;
    TornBytes(rs, n);
    EncodedIsText(rs);
    TextCut(Encode(rs), n);
    var k := Whole(rs, n);
    assert TextRecords(rs[..k]) by { assert forall i :: 0 <= i < k ==> rs[..k][i] == rs[i]; }
    hide TextRecords;
    OpsAreText(Items(Encode(rs)[..n]));
  }

  /// The letter e with an acute accent, cut between its two bytes.
  lemma CutInsideACharacter()
    ensures var r := Record("title", [0xC3 as char, 0xA9 as char]);
      Writable(r) && TextRecords([r]) && ReadLog(Encode([r])[..|Header(r)| + 2]) == None
  {
    var r := Record("title", [0xC3 as char, 0xA9 as char]);
    AccentIsText(r);
    var log := Encode([r]);
    assert log == Header(r) + "\n" + r.payload + "\n" by { EncodeLone(r); }
    hide *;
    assert log[|Header(r)| + 2] == r.payload[1];
    SecondByte(r.payload[1]);
    TornTail([r], |Header(r)| + 2);
  }

  lemma EncodeLone(r: Record)
    ensures Encode([r]) == Header(r) + "\n" + r.payload + "\n"
  {
    hide Header;
    assert [r][1..] == [] && Encode([]) == "";
    assert Encode([r]) == EncodeOne(r) + "";
  }

  lemma SecondByte(c: char)
    ensures c == 0xA9 as char ==> IsContinuation(c)
  {
  }

  lemma AccentIsText(r: Record)
    requires r == Record("title", [0xC3 as char, 0xA9 as char])
    ensures Writable(r) && TextRecords([r]) && AllWritable([r])
  {
    AsciiIsText(r.op);
    assert CharLength(r.payload) == 2 && r.payload[2..] == "";
  }

  // ---- an old drawer ----

  lemma LineAt(l: string, rest: string)
    requires OneLine(l)
    ensures LineEnd(l + "\n" + rest) == |l| + 1
    ensures (l + "\n" + rest)[..|l| + 1] == l + "\n" && (l + "\n" + rest)[|l| + 1..] == rest
  {
    assert l + "\n" + rest == l + ['\n'] + rest;
    FirstIndexAt(l, '\n', rest);
    hide FirstIndex;
  }

  lemma LineTrimmed(l: string)
    ensures Trim(l + "\n") == Trim(l) && Bare(l + "\n") == Bare(l)
  {
    assert (l + "\n")[..|l|] == l;
    LogLine.TrimDropsLast(l + "\n");
  }

  /// The entries of lines that are not blank.
  function EntriesOf(lines: seq<string>): seq<LogEntry> {
    if lines == [] then []
    else
      var bare := Bare(lines[0]);
      (if Trim(bare) == "" then [] else [LogLine.Parse(bare)]) + EntriesOf(lines[1..])
  }

  lemma {:induction false} RestIsRead(lines: seq<string>, end: string, rest: string)
    requires OneLineEach(lines) && OneLine(end) && SameNoCase(Trim(end), ":END:")
    requires forall i :: 0 <= i < |lines| ==> !SameNoCase(Trim(lines[i]), ":END:")
    ensures DrawerRest(Terminated(lines) + (end + "\n" + rest)) == Some((EntriesOf(lines), |Terminated(lines)| + |end| + 1))
    decreases |lines|
  {
    hide Trim, Bare, LogLine.Parse, SameNoCase, LineEnd, OneLine;
    if lines == [] {
      assert Terminated(lines) + (end + "\n" + rest) == end + "\n" + rest;
      LineAt(end, rest);
      LineTrimmed(end);
    } else {
      var (l, more) := (lines[0], Terminated(lines[1..]) + (end + "\n" + rest));
      assert Terminated(lines) + (end + "\n" + rest) == l + "\n" + more;
      LineAt(l, more);
      LineTrimmed(l);
      assert forall i :: 0 <= i < |lines[1..]| ==> lines[1..][i] == lines[i + 1];
      RestIsRead(lines[1..], end, rest);
      hide Terminated;
      assert |Terminated(lines)| == |l| + 1 + |Terminated(lines[1..])| by { TerminatedConcat([l], lines[1..]); FirstTerminated(lines); }
    }
  }

  lemma FirstTerminated(lines: seq<string>)
    requires lines != []
    ensures Terminated(lines) == lines[0] + "\n" + Terminated(lines[1..])
  {
  }

  /// A drawer of the old form is taken whole, in any case and indent: an entry
  /// for each of its lines that is not blank, up to the first that ends it.
  lemma OldDrawerIsRead(name: string, lines: seq<string>, end: string, rest: string)
    requires OneLine(name) && SameNoCase(Trim(name), ":LOGBOOK:")
    requires OneLineEach(lines) && OneLine(end) && SameNoCase(Trim(end), ":END:")
    requires forall i :: 0 <= i < |lines| ==> !SameNoCase(Trim(lines[i]), ":END:")
    ensures var text := name + "\n" + Terminated(lines) + end + "\n";
      text + rest != "" && LegacyAt(text + rest) == Some((EntriesOf(lines), |text|))
  {
    hide Trim, SameNoCase, LineEnd, OneLine, DrawerRest, EntriesOf, Terminated;
    var more := Terminated(lines) + (end + "\n" + rest);
    var text := name + "\n" + Terminated(lines) + end + "\n";
    assert text + rest == name + "\n" + more;
    LineAt(name, more);
    LineTrimmed(name);
    RestIsRead(lines, end, rest);
  }
}
