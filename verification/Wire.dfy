/**
 The wire format between the daemon and its drivers: an envelope line, labels with their
 lengths, and a payload. Messages delimit themselves, so a stream of them can be read back.
 */
module Wire {
  import opened Values
  import opened Lists
  import opened Runes

  const NEWLINE: Byte := 10
  const SPACE: Byte := 32
  const ZERO: Byte := 48

  /** A raw message; a missing payload is the empty one. */
  datatype Raw = Raw(channel: Bytes, subject: Bytes, labels: map<Bytes, Bytes>, payload: Bytes)

  datatype Error = EndOfInput | BadEnvelope | BadLabel | Truncated

  datatype Result<+T> = Ok(value: T, rest: Bytes) | Err(error: Error)

  // ------------------------------------------------------------------
  // Printing
  // ------------------------------------------------------------------

  function Decimal(n: nat): (s: Bytes)
    ensures |s| > 0
    ensures forall i :: 0 <= i < |s| ==> IsDigit(s[i])
  {
    if n < 10 then [ZERO + n] else Decimal(n / 10) + [ZERO + n % 10]
  }

  function Envelope(m: Raw): Bytes {
    m.channel + [SPACE] + m.subject + [SPACE] + Decimal(|m.labels|) + [SPACE] + Decimal(|m.payload|) + [NEWLINE]
  }

  function LabelLine(name: Bytes, value: Bytes): Bytes {
    name + [SPACE] + Decimal(|value|) + [NEWLINE]
  }

  /** Labels are written in whatever order the map yields them. */
  function EncodeLabels(labels: map<Bytes, Bytes>, order: seq<Bytes>): Bytes
    requires forall i :: 0 <= i < |order| ==> order[i] in labels
  {
    if order == [] then []
    else LabelLine(order[0], labels[order[0]]) + labels[order[0]] + EncodeLabels(labels, order[1..])
  }

  function Encode(m: Raw, order: seq<Bytes>): Bytes
    requires IsOrder(m, order)
  {
    Envelope(m) + EncodeLabels(m.labels, order) + m.payload
  }

  /** An order in which a map of labels may be iterated. */
  predicate IsOrder(m: Raw, order: seq<Bytes>) {
    && (forall i :: 0 <= i < |order| ==> order[i] in m.labels)
    && (forall name :: name in m.labels ==> name in order)
    && Distinct(order)
  }

  // ------------------------------------------------------------------
  // Scanning a line
  // ------------------------------------------------------------------

  predicate IsDigit(b: Byte) {
    ZERO <= b < ZERO + 10
  }

  /** White space comes next. */
  predicate SpaceAhead(input: Bytes) {
    input != [] && IsSpace(DecodeRune(input).0)
  }

  /** Skips white space within a line. */
  function SkipSpaces(input: Bytes): Bytes {
    if SpaceAhead(input) && input[0] != NEWLINE then SkipSpaces(input[DecodeRune(input).1..]) else input
  }

  /** The bytes up to white space. */
  function WordLength(input: Bytes): (n: nat)
    ensures n <= |input|
  {
    if input == [] || SpaceAhead(input) then 0
    else
      var d := DecodeRune(input);
      d.1 + WordLength(input[d.1..])
  }

  /** The word in those bytes: it is decoded and encoded again. */
  function Word(input: Bytes): Bytes {
    if input == [] || SpaceAhead(input) then []
    else
      var d := DecodeRune(input);
      EncodeRune(d.0) + Word(input[d.1..])
  }

  function DigitsLength(input: Bytes): (n: nat)
    ensures n <= |input|
    ensures forall i :: 0 <= i < n ==> IsDigit(input[i])
  {
    if input == [] || !IsDigit(input[0]) then 0 else 1 + DigitsLength(input[1..])
  }

  function Number(digits: Bytes): nat
    requires forall i :: 0 <= i < |digits| ==> IsDigit(digits[i])
  {
    if digits == [] then 0
    else
      assert IsDigit(digits[|digits| - 1]);
      Number(digits[..|digits| - 1]) * 10 + (digits[|digits| - 1] - ZERO)
  }

  function ScanWord(input: Bytes): Result<Bytes> {
    var line := SkipSpaces(input);
    var n := WordLength(line);
    if n == 0 then Err(if line == [] then EndOfInput else BadEnvelope) else Ok(Word(line), line[n..])
  }

  function ScanNumber(input: Bytes): Result<nat> {
    var line := SkipSpaces(input);
    var n := DigitsLength(line);
    if n == 0 then Err(BadEnvelope) else Ok(Number(line[..n]), line[n..])
  }

  /** The rest of a line must be blank; it is consumed with its newline. */
  function ScanEnd(input: Bytes): Result<()> {
    var line := SkipSpaces(input);
    if line == [] then Ok((), [])
    else if line[0] == NEWLINE then Ok((), line[1..])
    else Err(BadEnvelope)
  }

  function ReadFull(input: Bytes, n: nat): Result<Bytes> {
    if n <= |input| then Ok(input[..n], input[n..]) else Err(Truncated)
  }

  // ------------------------------------------------------------------
  // Reading
  // ------------------------------------------------------------------

  datatype Header = Header(channel: Bytes, subject: Bytes, numLabels: nat, size: nat)

  function ReadHeader(input: Bytes): Result<Header> {
    match ScanWord(input)
    case Err(e) => Err(e)
    case Ok(channel, in1) =>
      match ScanWord(in1)
      case Err(_) => Err(BadEnvelope)
      case Ok(subject, in2) =>
        match ScanNumber(in2)
        case Err(e) => Err(e)
        case Ok(numLabels, in3) =>
          match ScanNumber(in3)
          case Err(e) => Err(e)
          case Ok(size, in4) =>
            match ScanEnd(in4)
            case Err(e) => Err(e)
            case Ok(_, in5) => Ok(Header(channel, subject, numLabels, size), in5)
  }

  function ReadLabel(input: Bytes): Result<(Bytes, Bytes)> {
    match ScanWord(input)
    case Err(_) => Err(BadLabel)
    case Ok(name, in1) =>
      match ScanNumber(in1)
      case Err(_) => Err(BadLabel)
      case Ok(size, in2) =>
        match ScanEnd(in2)
        case Err(_) => Err(BadLabel)
        case Ok(_, in3) =>
          match ReadFull(in3, size)
          case Err(e) => Err(e)
          case Ok(value, in4) => Ok((name, value), in4)
  }

  function ReadLabels(input: Bytes, n: nat, labels: map<Bytes, Bytes>): Result<map<Bytes, Bytes>>
    decreases n
  {
    if n == 0 then Ok(labels, input)
    else
      match ReadLabel(input)
      case Err(e) => Err(e)
      case Ok(l, in1) => ReadLabels(in1, n - 1, labels[l.0 := l.1])
  }

  function Fetch(input: Bytes): Result<Raw> {
    match ReadHeader(input)
    case Err(e) => Err(e)
    case Ok(h, in1) =>
      match ReadLabels(in1, h.numLabels, map[])
      case Err(e) => Err(e)
      case Ok(labels, in2) =>
        match ReadFull(in2, h.size)
        case Err(e) => Err(e)
        case Ok(payload, in3) => Ok(Raw(h.channel, h.subject, labels, payload), in3)
  }

  // ------------------------------------------------------------------
  // Round trips
  // ------------------------------------------------------------------

  /** UTF-8 without white space. */
  predicate IsPlain(s: Bytes) {
    s == [] || (StartsWell(s) && !SpaceAhead(s) && IsPlain(s[DecodeRune(s).1..]))
  }

  /** A name that survives scanning. */
  predicate IsWord(s: Bytes) {
    s != [] && IsPlain(s)
  }

  predicate Sendable(m: Raw) {
    && IsWord(m.channel) && IsWord(m.subject)
    && forall name :: name in m.labels ==> IsWord(name)
  }

  /** Where a text starts with a code point, more text makes no difference. */
  lemma StillStarts(s: Bytes, rest: Bytes)
    requires s != [] && StartsWell(s)
    ensures DecodeRune(s + rest) == DecodeRune(s)
  {
    hide DecodeRune, EncodeRune;
    var d := DecodeRune(s);
    DecodeEncoded(d.0, s[d.1..] + rest);
    DecodeEncoded(d.0, s[d.1..]);
    assert s == EncodeRune(d.0) + s[d.1..];
    assert s + rest == EncodeRune(d.0) + (s[d.1..] + rest);
  }

  lemma {:induction false} WordIs(w: Bytes, rest: Bytes)
    requires IsPlain(w) && SpaceAhead(rest)
    ensures WordLength(w + rest) == |w| && Word(w + rest) == w
    decreases |w|
  {
    hide DecodeRune, EncodeRune, IsSpace;
    if w == [] {
      assert w + rest == rest;
    } else {
      var d := DecodeRune(w);
      StillStarts(w, rest);
      WordIs(w[d.1..], rest);
      assert (w + rest)[d.1..] == w[d.1..] + rest;
      assert w == EncodeRune(d.0) + w[d.1..];
    }
  }

  /** A word is read back, after at most one space. */
  lemma ScanWordBack(w: Bytes, rest: Bytes)
    requires IsWord(w) && SpaceAhead(rest)
    ensures ScanWord(w + rest) == Ok(w, rest)
    ensures ScanWord([SPACE] + w + rest) == Ok(w, rest)
  {
    hide DecodeRune, EncodeRune, IsSpace;
    WordIs(w, rest);
    StillStarts(w, rest);
    SpaceIsSkipped(w + rest);
    assert [SPACE] + w + rest == [SPACE] + (w + rest);
    assert (w + rest)[|w|..] == rest;
  }

  lemma {:induction false} PlainMore(r: Rune, s: Bytes)
    requires !IsSpace(r) && IsPlain(s)
    ensures IsWord(EncodeRune(r) + s)
  {
    hide DecodeRune, EncodeRune, IsSpace;
    var e := EncodeRune(r);
    DecodeEncoded(r, s);
    assert (e + s)[..|e|] == e && (e + s)[|e|..] == s;
  }

  lemma {:induction false} WordIsPlain(input: Bytes)
    ensures IsPlain(Word(input))
    ensures WordLength(input) > 0 ==> Word(input) != []
    decreases |input|
  {
    hide DecodeRune, EncodeRune, IsSpace;
    if input != [] && !SpaceAhead(input) {
      var d := DecodeRune(input);
      WordIsPlain(input[d.1..]);
      PlainMore(d.0, Word(input[d.1..]));
    }
  }

  /** Whatever is read as a word is one. */
  lemma ScanWordIsWord(input: Bytes)
    ensures ScanWord(input).Ok? ==> IsWord(ScanWord(input).value)
  {
    hide SkipSpaces, WordLength, Word, IsPlain;
    WordIsPlain(SkipSpaces(input));
  }

  lemma SpaceIsSkipped(s: Bytes)
    ensures SkipSpaces([SPACE] + s) == SkipSpaces(s)
  {
    var t := [SPACE] + s;
    assert t[1..] == s && t[0] == SPACE && DecodeRune(t) == (SPACE, 1);
  }

  lemma {:induction false} DigitsLengthIs(d: Bytes, rest: Bytes)
    requires forall i :: 0 <= i < |d| ==> IsDigit(d[i])
    requires rest != [] && !IsDigit(rest[0])
    ensures DigitsLength(d + rest) == |d|
    decreases |d|
  {
    if d == [] {
      assert d + rest == rest;
    } else {
      DigitsLengthIs(d[1..], rest);
      assert (d + rest)[1..] == d[1..] + rest;
    }
  }

  lemma {:induction false} DecimalBack(n: nat)
    ensures Number(Decimal(n)) == n
  {
    var d := Decimal(n);
    if n < 10 {
      assert d[..|d| - 1] == [];
    } else {
      DecimalBack(n / 10);
      assert d[..|d| - 1] == Decimal(n / 10);
    }
  }

  /** A number is printed in ASCII digits, the most significant first and none of them needless. */
  lemma {:induction false} DecimalIs(n: nat)
    ensures n < 10 ==> Decimal(n) == [48 + n]
    ensures n >= 10 ==> Decimal(n) == Decimal(n / 10) + [48 + n % 10]
    ensures n > 0 ==> Decimal(n)[0] != 48
  {
    if n >= 10 {
      DecimalIs(n / 10);
    }
  }

  /** A small message, byte by byte: one label, and a payload of eleven bytes. */
  lemma SampleMessage(payload: Bytes)
    requires |payload| == 11
    ensures var m := Raw([99], [115], map[[108] := [118, 118]], payload);
            && IsOrder(m, [[108]])
            && Encode(m, [[108]])
               == [99, 32, 115, 32, 49, 32, 49, 49, 10] + ([108, 32, 50, 10] + [118, 118]) + payload
  {
    var m := Raw([99], [115], map[[108] := [118, 118]], payload);
    var order: seq<Bytes> := [[108]];
    DecimalIs(1);
    DecimalIs(2);
    DecimalIs(11);
    assert m.labels.Keys == {[108]} && |m.labels| == 1;
    assert Decimal(11) == [49, 49] && Decimal(1) == [49] && Decimal(2) == [50];
    assert order[1..] == [] && EncodeLabels(m.labels, order[1..]) == [];
    assert LabelLine([108], [118, 118]) == [108, 32, 50, 10];
    assert EncodeLabels(m.labels, order) == [108, 32, 50, 10] + [118, 118];
    assert Envelope(m) == [99, 32, 115, 32, 49, 32, 49, 49, 10];
  }

  lemma DigitIsNoSpace(s: Bytes)
    requires s != [] && IsDigit(s[0])
    ensures SkipSpaces(s) == s
  {
  }

  /** A number is read back after a space. */
  lemma ScanNumberBack(n: nat, rest: Bytes)
    requires rest != [] && !IsDigit(rest[0])
    ensures ScanNumber([SPACE] + Decimal(n) + rest) == Ok(n, rest)
  {
    hide Decimal, Number, DigitsLength, SkipSpaces;
    var d := Decimal(n);
    DigitsLengthIs(d, rest);
    DecimalBack(n);
    SpaceIsSkipped(d + rest);
    DigitIsNoSpace(d + rest);
    assert [SPACE] + d + rest == [SPACE] + (d + rest);
    assert (d + rest)[..|d|] == d && (d + rest)[|d|..] == rest;
  }

  lemma AsciiSpaces(s: Bytes)
    requires s != [] && (s[0] == SPACE || s[0] == NEWLINE)
    ensures SpaceAhead(s) && (s[0] == NEWLINE ==> SkipSpaces(s) == s)
  {
  }

  lemma ReadHeaderBack(m: Raw, rest: Bytes)
    requires Sendable(m)
    ensures ReadHeader(Envelope(m) + rest) == Ok(Header(m.channel, m.subject, |m.labels|, |m.payload|), rest)
  {
    hide ScanWord, ScanNumber, Decimal, DecodeRune;
    var r4 := [NEWLINE] + rest;
    var r3 := [SPACE] + Decimal(|m.payload|) + r4;
    var r2 := [SPACE] + Decimal(|m.labels|) + r3;
    var r1 := [SPACE] + m.subject + r2;
    AsciiSpaces(r1);
    AsciiSpaces(r2);
    AsciiSpaces(r4);
    ScanWordBack(m.channel, r1);
    ScanWordBack(m.subject, r2);
    ScanNumberBack(|m.labels|, r3);
    ScanNumberBack(|m.payload|, r4);
    assert Envelope(m) + rest == m.channel + r1;
  }

  lemma ReadLabelBack(name: Bytes, value: Bytes, rest: Bytes)
    requires IsWord(name)
    ensures ReadLabel(LabelLine(name, value) + value + rest) == Ok((name, value), rest)
  {
    hide ScanWord, ScanNumber, Decimal, DecodeRune;
    var r2 := [NEWLINE] + (value + rest);
    var r1 := [SPACE] + Decimal(|value|) + r2;
    AsciiSpaces(r1);
    AsciiSpaces(r2);
    ScanWordBack(name, r1);
    ScanNumberBack(|value|, r2);
    assert LabelLine(name, value) + value + rest == name + r1;
    assert (value + rest)[..|value|] == value && (value + rest)[|value|..] == rest;
  }

  /** Reading labels adds them, in order, to those already read. */
  lemma {:induction false} ReadLabelsBack(labels: map<Bytes, Bytes>, order: seq<Bytes>, rest: Bytes,
                                          got: map<Bytes, Bytes>)
    requires forall i :: 0 <= i < |order| ==> order[i] in labels && IsWord(order[i])
    ensures var r := ReadLabels(EncodeLabels(labels, order) + rest, |order|, got);
            && r.Ok? && r.rest == rest
            && (forall k :: k in r.value <==> k in got || k in order)
            && (forall k :: k in r.value ==> r.value[k] == if k in order then labels[k] else got[k])
    decreases |order|
  {
    hide ReadLabel, LabelLine, IsWord;
    if order == [] {
      assert EncodeLabels(labels, order) + rest == rest;
    } else {
      var name, value := order[0], labels[order[0]];
      var tail := EncodeLabels(labels, order[1..]) + rest;
      ReadLabelBack(name, value, tail);
      assert EncodeLabels(labels, order) + rest == LabelLine(name, value) + value + tail;
      ReadLabelsBack(labels, order[1..], rest, got[name := value]);
    }
  }

  lemma OrderSize(m: Raw, order: seq<Bytes>)
    requires IsOrder(m, order)
    ensures |order| == |m.labels|
  {
    DistinctSize(order);
    assert Elements(order) == m.labels.Keys;
  }

  /** One message: reading returns it and consumes exactly its own bytes. */
  lemma FetchBack(m: Raw, order: seq<Bytes>, rest: Bytes)
    requires Sendable(m) && IsOrder(m, order)
    ensures Fetch(Encode(m, order) + rest) == Ok(m, rest)
  {
    hide ReadHeader, ReadLabels, EncodeLabels, Envelope;
    var in2 := m.payload + rest;
    var in1 := EncodeLabels(m.labels, order) + in2;
    assert Encode(m, order) + rest == Envelope(m) + in1;
    ReadHeaderBack(m, in1);
    OrderSize(m, order);
    ReadLabelsBack(m.labels, order, in2, map[]);
    assert ReadLabels(in1, |order|, map[]).value == m.labels;
    assert in2[..|m.payload|] == m.payload && in2[|m.payload|..] == rest;
  }

  lemma {:induction false} LabelsAreWords(input: Bytes, n: nat, got: map<Bytes, Bytes>)
    requires forall name :: name in got ==> IsWord(name)
    ensures var r := ReadLabels(input, n, got); r.Ok? ==> forall name :: name in r.value ==> IsWord(name)
    decreases n
  {
    hide ScanWord, IsWord;
    if n > 0 {
      ScanWordIsWord(input);
      match ReadLabel(input)
      case Err(_) =>
      case Ok(l, in1) => LabelsAreWords(in1, n - 1, got[l.0 := l.1]);
    }
  }

  /** Whatever is read could have been sent. */
  lemma FetchedIsSendable(input: Bytes)
    ensures Fetch(input).Ok? ==> Sendable(Fetch(input).value)
  {
    hide ScanWord, ScanNumber, ScanEnd, ReadLabels, IsWord;
    ScanWordIsWord(input);
    match ScanWord(input)
    case Err(_) =>
    case Ok(_, in1) =>
      ScanWordIsWord(in1);
      match ReadHeader(input)
      case Err(_) =>
      case Ok(h, in2) => LabelsAreWords(in2, h.numLabels, map[]);
  }

  /** A message survives the wire if and only if its names are words. */
  lemma FetchBackIffSendable(m: Raw, order: seq<Bytes>, rest: Bytes)
    requires IsOrder(m, order)
    ensures Fetch(Encode(m, order) + rest) == Ok(m, rest) <==> Sendable(m)
  {
    hide Fetch, Encode, Sendable;
    FetchedIsSendable(Encode(m, order) + rest);
    if Sendable(m) {
      FetchBack(m, order, rest);
    }
  }

  /** A no-break space, which ends a word; and a byte that is part of no encoding. */
  lemma NamesThatDoNotSurvive(rest: Bytes)
    ensures !IsWord([0xC2, 0xA0]) && !IsWord([0xFF])
    ensures SpaceAhead(rest) ==> ScanWord([0xFF] + rest) == Ok([0xEF, 0xBF, 0xBD], rest)
  {
    assert DecodeRune([0xC2, 0xA0]).0 == 0xA0;
    assert DecodeRune([0xFF]) == (REPLACEMENT, 1) && EncodeRune(REPLACEMENT) == [0xEF, 0xBF, 0xBD];
    if SpaceAhead(rest) {
      var input: Bytes := [0xFF] + rest;
      assert DecodeRune(input) == (REPLACEMENT, 1) && input[1..] == rest;
      assert Word(rest) == [] && WordLength(rest) == 0;
      assert SkipSpaces(input) == input && WordLength(input) == 1;
      assert Word(input) == EncodeRune(REPLACEMENT) + [] == [0xEF, 0xBF, 0xBD];
    }
  }

  datatype Sent = Sent(msg: Raw, order: seq<Bytes>)
  {
    predicate Valid() {
      IsOrder(msg, order)
    }
  }

  predicate AllSendable(sent: seq<Sent>) {
    forall i :: 0 <= i < |sent| ==> Sendable(sent[i].msg)
  }

  function EncodeAll(sent: seq<Sent>): Bytes
    requires forall i :: 0 <= i < |sent| ==> sent[i].Valid()
  {
    if sent == [] then []
    else
      assert sent[0].Valid();
      Encode(sent[0].msg, sent[0].order) + EncodeAll(sent[1..])
  }

  function Messages(sent: seq<Sent>): (ms: seq<Raw>)
    ensures |ms| == |sent|
    ensures forall i :: 0 <= i < |ms| ==> ms[i] == sent[i].msg
  {
    if sent == [] then [] else [sent[0].msg] + Messages(sent[1..])
  }

  /** Reads `n` messages off a stream. */
  function FetchAll(input: Bytes, n: nat): Result<seq<Raw>>
    decreases n
  {
    if n == 0 then Ok([], input)
    else
      match Fetch(input)
      case Err(e) => Err(e)
      case Ok(m, in1) =>
        match FetchAll(in1, n - 1)
        case Err(e) => Err(e)
        case Ok(ms, in2) => Ok([m] + ms, in2)
  }

  /** A stream of messages is read back as the same list, whatever follows it. */
  lemma {:induction false} StreamBack(sent: seq<Sent>, rest: Bytes)
    requires (forall i :: 0 <= i < |sent| ==> sent[i].Valid()) && AllSendable(sent)
    ensures FetchAll(EncodeAll(sent) + rest, |sent|) == Ok(Messages(sent), rest)
    decreases |sent|
  {
    hide Encode, Fetch, IsOrder, Sendable;
    if sent == [] {
      assert EncodeAll(sent) + rest == rest;
    } else {
      var tail := EncodeAll(sent[1..]) + rest;
      assert EncodeAll(sent) + rest == Encode(sent[0].msg, sent[0].order) + tail;
      FetchBack(sent[0].msg, sent[0].order, tail);
      StreamBack(sent[1..], rest);
    }
  }

  lemma {:induction false} AllFetchedSendable(input: Bytes, n: nat)
    ensures var r := FetchAll(input, n); r.Ok? ==> forall i :: 0 <= i < |r.value| ==> Sendable(r.value[i])
    decreases n
  {
    hide Fetch, Sendable;
    if n > 0 {
      FetchedIsSendable(input);
      match Fetch(input)
      case Err(_) =>
      case Ok(_, in1) => AllFetchedSendable(in1, n - 1);
    }
  }

  /** A stream survives the wire if and only if all its messages can. */
  lemma StreamBackIffSendable(sent: seq<Sent>, rest: Bytes)
    requires forall i :: 0 <= i < |sent| ==> sent[i].Valid()
    ensures FetchAll(EncodeAll(sent) + rest, |sent|) == Ok(Messages(sent), rest) <==> AllSendable(sent)
  {
    hide FetchAll, EncodeAll, Sendable, IsOrder;
    AllFetchedSendable(EncodeAll(sent) + rest, |sent|);
    if AllSendable(sent) {
      StreamBack(sent, rest);
    }
  }

  // ------------------------------------------------------------------
  // The program's own reader and writer
  // ------------------------------------------------------------------

  /** The labels written so far, and those left. */
  ghost predicate PartialOrder(labels: map<Bytes, Bytes>, order: seq<Bytes>, left: set<Bytes>) {
    && left <= labels.Keys
    && (forall i :: 0 <= i < |order| ==> order[i] in labels && order[i] !in left)
    && (forall name :: name in labels ==> name in left || name in order)
    && Distinct(order)
  }

  predicate InLabels(labels: map<Bytes, Bytes>, order: seq<Bytes>) {
    forall i :: 0 <= i < |order| ==> order[i] in labels
  }

  lemma PartialStart(labels: map<Bytes, Bytes>)
    ensures PartialOrder(labels, [], labels.Keys)
  {
  }

  lemma PartialNext(labels: map<Bytes, Bytes>, order: seq<Bytes>, left: set<Bytes>, name: Bytes)
    requires PartialOrder(labels, order, left) && name in left
    ensures PartialOrder(labels, order + [name], left - {name})
    ensures name in labels && InLabels(labels, order + [name])
  {
  }

  lemma PartialEnd(m: Raw, order: seq<Bytes>)
    requires PartialOrder(m.labels, order, {})
    ensures IsOrder(m, order)
  {
  }

  class Stream {
    var data: Bytes

    constructor ()
      ensures data == []
    {
      data := [];
    }

    /** Appends one message; the labels come in whatever order the map yields them. */
    method SendMessage(m: Raw) returns (ghost order: seq<Bytes>)
      modifies this
      ensures IsOrder(m, order)
      ensures data == old(data) + Encode(m, order)
    {
      hide Envelope, LabelLine, PartialOrder;
      data := data + Envelope(m);
      order := [];
      PartialStart(m.labels);
      ghost var start := data;
      var left := m.labels.Keys;
      while left != {}
        invariant PartialOrder(m.labels, order, left) && InLabels(m.labels, order)
        invariant data == start + EncodeLabels(m.labels, order)
        decreases left
      {
        hide EncodeLabels;
        var name :| name in left;
        PartialNext(m.labels, order, left, name);
        LabelsSnoc(m.labels, order, name);
        ghost var before := EncodeLabels(m.labels, order);
        data := data + LabelLine(name, m.labels[name]);
        data := data + m.labels[name];
        assert data == start + (before + LabelLine(name, m.labels[name]) + m.labels[name]);
        order := order + [name];
        left := left - {name};
      }
      PartialEnd(m, order);
      if m.payload != [] {
        data := data + m.payload;
      }
      assert start + EncodeLabels(m.labels, order) + m.payload == old(data) + Encode(m, order);
    }

    /** Takes one message off the stream, or fails as `Fetch` does. */
    method FetchRawMessage() returns (r: Result<Raw>)
      modifies this
      ensures r == Fetch(old(data))
      ensures r.Ok? ==> data == r.rest
    {
      hide ReadHeader, ReadLabel;
      match ReadHeader(data)
      case Err(e) => return Err(e);
      case Ok(h, in1) =>
        data := in1;
        var labels: map<Bytes, Bytes> := map[];
        var n := h.numLabels;
        while n > 0
          invariant ReadLabels(data, n, labels) == ReadLabels(in1, h.numLabels, map[])
        {
          match ReadLabel(data) {
            case Err(e) => return Err(e);
            case Ok(l, in2) =>
              labels := labels[l.0 := l.1];
              data := in2;
              n := n - 1;
          }
        }
        var payload: Bytes := [];
        if h.size > 0 {
          if |data| < h.size {
            return Err(Truncated);
          }
          payload := data[..h.size];
          data := data[h.size..];
        }
        return Ok(Raw(h.channel, h.subject, labels, payload), data);
    }
  }

  lemma {:induction false} LabelsSnoc(labels: map<Bytes, Bytes>, order: seq<Bytes>, name: Bytes)
    requires forall i :: 0 <= i < |order| ==> order[i] in labels
    requires name in labels
    ensures EncodeLabels(labels, order + [name])
            == EncodeLabels(labels, order) + LabelLine(name, labels[name]) + labels[name]
    decreases |order|
  {
    if order == [] {
      assert order + [name] == [name];
      assert EncodeLabels(labels, [name][1..]) == [];
    } else {
      LabelsSnoc(labels, order[1..], name);
      assert (order + [name])[1..] == order[1..] + [name];
    }
  }

  // ------------------------------------------------------------------
  // Several senders on one writer
  // ------------------------------------------------------------------

  /** The separate writes `SendMessage` makes while it holds the writer's lock. */
  function LabelWrites(labels: map<Bytes, Bytes>, order: seq<Bytes>): seq<Bytes>
    requires forall i :: 0 <= i < |order| ==> order[i] in labels
  {
    if order == [] then []
    else [LabelLine(order[0], labels[order[0]]), labels[order[0]]] + LabelWrites(labels, order[1..])
  }

  function Writes(s: Sent): seq<Bytes>
    requires s.Valid()
  {
    [Envelope(s.msg)] + LabelWrites(s.msg.labels, s.order) + (if s.msg.payload == [] then [] else [s.msg.payload])
  }

  function Join(writes: seq<Bytes>): Bytes {
    if writes == [] then [] else Join(writes[..|writes| - 1]) + writes[|writes| - 1]
  }

  /** Senders take the lock in any order; `done` lists those that have given it back. */
  datatype Channel = Channel(senders: seq<Sent>, out: Bytes, holder: Option<nat>, written: nat, done: seq<nat>)

  datatype Act = Lock(sender: nat) | Write | Unlock

  predicate Valid(c: Channel) {
    && (forall i :: 0 <= i < |c.senders| ==> c.senders[i].Valid())
    && (forall i :: 0 <= i < |c.done| ==> c.done[i] < |c.senders|)
    && (c.holder.Some? ==> c.holder.value < |c.senders| && c.written <= |Writes(c.senders[c.holder.value])|)
  }

  predicate CanDo(c: Channel, a: Act)
    requires Valid(c)
  {
    match a
    case Lock(i) => c.holder.None? && i < |c.senders| && i !in c.done
    case Write => c.holder.Some? && c.written < |Writes(c.senders[c.holder.value])|
    case Unlock => c.holder.Some? && c.written == |Writes(c.senders[c.holder.value])|
  }

  function Do(c: Channel, a: Act): (r: Channel)
    requires Valid(c) && CanDo(c, a)
    ensures Valid(r)
  {
    match a
    case Lock(i) => c.(holder := Some(i), written := 0)
    case Write => c.(out := c.out + Writes(c.senders[c.holder.value])[c.written], written := c.written + 1)
    case Unlock => c.(holder := None, done := c.done + [c.holder.value])
  }

  /** The messages whose sending is over, in the order they took the lock. */
  function Finished(c: Channel): (r: seq<Sent>)
    requires Valid(c)
    ensures |r| == |c.done|
    ensures forall i :: 0 <= i < |r| ==> r[i].Valid() && r[i] == c.senders[c.done[i]]
  {
    seq(|c.done|, i requires 0 <= i < |c.done| => c.senders[c.done[i]])
  }

  ghost predicate IsSchedule(cs: seq<Channel>, acts: seq<Act>) {
    && |cs| == |acts| + 1
    && (forall i :: 0 <= i < |cs| ==> Valid(cs[i]))
    && cs[0].out == [] && cs[0].holder.None? && cs[0].done == []
    && (forall i :: 0 <= i < |acts| ==> CanDo(cs[i], acts[i]) && cs[i + 1] == Do(cs[i], acts[i]))
  }

  ghost predicate Clean(c: Channel)
    requires Valid(c)
  {
    && Distinct(c.done)
    && (c.holder.Some? ==> c.holder.value !in c.done)
    && c.out == EncodeAll(Finished(c))
                + (if c.holder.Some? then Join(Writes(c.senders[c.holder.value])[..c.written]) else [])
  }

  lemma {:induction false} LabelWritesJoin(labels: map<Bytes, Bytes>, order: seq<Bytes>)
    requires forall i :: 0 <= i < |order| ==> order[i] in labels
    ensures Join(LabelWrites(labels, order)) == EncodeLabels(labels, order)
    decreases |order|
  {
    if order == [] {
    } else {
      LabelWritesJoin(labels, order[1..]);
      JoinSum([LabelLine(order[0], labels[order[0]]), labels[order[0]]], LabelWrites(labels, order[1..]));
      JoinTwo(LabelLine(order[0], labels[order[0]]), labels[order[0]]);
    }
  }

  lemma JoinOne(a: Bytes)
    ensures Join([a]) == a
  {
    assert Join([a][..0]) == [];
  }

  lemma JoinTwo(a: Bytes, b: Bytes)
    ensures Join([a, b]) == a + b
  {
    assert [a, b][..1] == [a];
    JoinOne(a);
  }

  lemma {:induction false} JoinSum(a: seq<Bytes>, b: seq<Bytes>)
    ensures Join(a + b) == Join(a) + Join(b)
    decreases |b|
  {
    if b == [] {
      assert a + b == a;
    } else {
      var n := |b| - 1;
      JoinSum(a, b[..n]);
      assert (a + b)[..|a + b| - 1] == a + b[..n];
    }
  }

  /** The separate writes add up to the encoded message. */
  lemma WritesJoin(s: Sent)
    requires s.Valid()
    ensures Join(Writes(s)) == Encode(s.msg, s.order)
  {
    hide Envelope, Sendable;
    var ls := LabelWrites(s.msg.labels, s.order);
    JoinOne(Envelope(s.msg));
    JoinSum([Envelope(s.msg)], ls);
    LabelWritesJoin(s.msg.labels, s.order);
    if s.msg.payload == [] {
      assert Writes(s) == [Envelope(s.msg)] + ls;
    } else {
      JoinOne(s.msg.payload);
      JoinSum([Envelope(s.msg)] + ls, [s.msg.payload]);
    }
  }

  lemma {:induction false} EncodeAllSnoc(sent: seq<Sent>, s: Sent)
    requires s.Valid() && forall i :: 0 <= i < |sent| ==> sent[i].Valid()
    ensures EncodeAll(sent + [s]) == EncodeAll(sent) + Encode(s.msg, s.order)
    decreases |sent|
  {
    hide Encode, IsOrder, Sendable;
    if sent == [] {
      assert sent + [s] == [s];
      assert EncodeAll([s][1..]) == [];
    } else {
      EncodeAllSnoc(sent[1..], s);
      assert (sent + [s])[1..] == sent[1..] + [s];
    }
  }

  lemma StepKeepsClean(c: Channel, a: Act)
    requires Valid(c) && CanDo(c, a) && Clean(c)
    ensures Clean(Do(c, a))
  {
    hide Encode, Writes, EncodeAll, Sendable, IsOrder;
    var c' := Do(c, a);
    match a
    case Lock(i) =>
      assert Finished(c') == Finished(c);
    case Write =>
      assert Finished(c') == Finished(c);
      var ws := Writes(c.senders[c.holder.value]);
      assert ws[..c.written + 1][..c.written] == ws[..c.written];
      assert Join(ws[..c.written + 1]) == Join(ws[..c.written]) + ws[c.written];
    case Unlock =>
      var s := c.senders[c.holder.value];
      assert Finished(c') == Finished(c) + [s];
      EncodeAllSnoc(Finished(c), s);
      WritesJoin(s);
      assert Writes(s)[..c.written] == Writes(s);
  }

  lemma {:induction false} ScheduleClean(cs: seq<Channel>, acts: seq<Act>, i: nat)
    requires IsSchedule(cs, acts) && i < |cs|
    ensures Clean(cs[i])
    decreases i
  {
    if i == 0 {
    } else {
      ScheduleClean(cs, acts, i - 1);
      StepKeepsClean(cs[i - 1], acts[i - 1]);
    }
  }

  /**
   However senders interleave, whenever nobody holds the lock the stream holds whole messages,
   each sender's at most once, in the order they took the lock; and it reads back as these if
   and only if their names survive scanning.
   */
  lemma SendersDoNotMix(cs: seq<Channel>, acts: seq<Act>, i: nat)
    requires IsSchedule(cs, acts) && i < |cs| && cs[i].holder.None?
    ensures cs[i].out == EncodeAll(Finished(cs[i])) && Distinct(cs[i].done)
    ensures FetchAll(cs[i].out, |cs[i].done|) == Ok(Messages(Finished(cs[i])), []) <==> AllSendable(Finished(cs[i]))
  {
    hide AllSendable;
    ScheduleClean(cs, acts, i);
    assert EncodeAll(Finished(cs[i])) + [] == cs[i].out;
    StreamBackIffSendable(Finished(cs[i]), []);
  }
}
