/**
 The chunker of the AI chat stream: text arrives in pieces and is emitted in records that never
 cut a code block in two. Thoughts are not hidden and the user does not cancel.
 */
module StreamChunker {
  import Runes

  const FENCE := "```"

  /** In bytes. */
  const LIMIT := 2990

  predicate IsSpace(c: char) {
    Runes.IsSpace(c as int)
  }

  predicate HasFenceAt(s: string, i: int) {
    0 <= i && i + 3 <= |s| && s[i] == s[i + 1] == s[i + 2] == '`'
  }

  /** The number of fences, found from the left without overlap. */
  function Count(s: string): nat {
    if |s| < 3 then 0
    else if HasFenceAt(s, 0) then 1 + Count(s[3..])
    else Count(s[1..])
  }

  /** The number of single back quotes. */
  function Ticks(s: string): nat {
    if s == [] then 0 else (if s[0] == '`' then 1 else 0) + Ticks(s[1..])
  }

  /** The text without its fences. */
  function WithoutFences(s: string): string {
    if |s| < 3 then s
    else if HasFenceAt(s, 0) then WithoutFences(s[3..])
    else [s[0]] + WithoutFences(s[1..])
  }

  /** Where the last fence starts, or -1. */
  function LastFence(s: string): (i: int)
    ensures i == -1 || HasFenceAt(s, i)
    ensures forall j :: i < j ==> !HasFenceAt(s, j)
  {
    if |s| < 3 then -1
    else if HasFenceAt(s, |s| - 3) then |s| - 3
    else
      var i := LastFence(s[..|s| - 1]);
      assert forall j :: HasFenceAt(s, j) && j != |s| - 3 ==> HasFenceAt(s[..|s| - 1], j);
      i
  }

  function TrimLeft(s: string): string {
    if s != [] && IsSpace(s[0]) then TrimLeft(s[1..]) else s
  }

  function TrimRight(s: string): string {
    if s != [] && IsSpace(s[|s| - 1]) then TrimRight(s[..|s| - 1]) else s
  }

  function Trim(s: string): string {
    TrimRight(TrimLeft(s))
  }

  predicate Contains(s: string, t: string) {
    |t| <= |s| && (s[..|t|] == t || (s != "" && Contains(s[1..], t)))
  }

  // ------------------------------------------------------------------
  // The handler
  // ------------------------------------------------------------------

  datatype Record = Record(done: bool, content: string, kind: string)

  datatype State = State(
    codeBlock: bool,
    inlineCode: bool,
    builder: string,
    msgType: string,
    done: bool,
    emitted: seq<Record>)

  const START := State(false, false, "", "", false, [])

  function Emit(s: State, done: bool): State {
    if s.done then s
    else s.(done := done, emitted := s.emitted + [Record(done, s.builder, s.msgType)], builder := "")
  }

  function Thoughts(s: State, text: string): State {
    if Contains(text, "<think>") then s.(msgType := "think") else s
  }

  /** Closes a code block: emits up to the closing fence, and keeps the trimmed rest. */
  function CloseBlock(s: State, text: string, done: bool): (State, string)
    requires LastFence(text) >= 0
  {
    var b := LastFence(text);
    var rest := Trim(text[b + 3..]);
    (Emit(s.(builder := s.builder + text[..b] + FENCE), done && rest == ""), rest)
  }

  function Buffer(s: State, text: string, boundary: bool): State {
    s.(codeBlock := s.codeBlock != boundary,
       inlineCode := s.inlineCode != (Ticks(WithoutFences(text)) % 2 != 0),
       builder := s.builder + text)
  }

  /** Outside of code the buffer is sent at natural breaks. */
  predicate Breaks(s: State, text: string, typeChange: bool, done: bool) {
    && !s.codeBlock && !s.inlineCode
    && (|| done || typeChange
        || (text != "" && text[|text| - 1] == '\n')
        || Runes.Utf8Length(s.builder) > LIMIT)
  }

  function Flush(s: State, text: string, typeChange: bool, done: bool): State {
    var s1 := if Breaks(s, text, typeChange, done) then Emit(s, done) else s;
    if typeChange then s1.(msgType := "") else s1
  }

  function Handle(s: State, t: string, done: bool): State {
    var typeChange := Contains(t, "</think>");
    var s1 := Thoughts(s, t);
    var boundary := Count(t) % 2 != 0;
    if boundary && s.codeBlock then
      assert LastFence(t) >= 0 by { CountNeedsFence(t); }
      var (s2, rest) := CloseBlock(s1, t, done);
      Flush(Buffer(s2, rest, boundary), rest, typeChange, done)
    else
      var s2 := if boundary then Emit(s1, false) else s1;
      Flush(Buffer(s2, t, boundary), t, typeChange, done)
  }

  /** The chat wrapper, as the program writes it. */
  class ChatWrapper {
    var codeBlock: bool
    var inlineCode: bool
    var builder: string
    var msgType: string
    var done: bool
    var emitted: seq<Record>

    ghost function View(): State
      reads this
    {
      State(codeBlock, inlineCode, builder, msgType, done, emitted)
    }

    constructor ()
      ensures View() == START
    {
      codeBlock, inlineCode, builder, msgType, done, emitted := false, false, "", "", false, [];
    }

    method ChatEmit(isDone: bool)
      modifies `done, `builder, `emitted
      ensures View() == Emit(old(View()), isDone)
    {
      if done {
        return;
      }
      done := isDone;
      var content := builder;
      builder := "";
      emitted := emitted + [Record(isDone, content, msgType)];
    }

    method StreamHandler(t: string, isDone: bool)
      modifies this
      ensures View() == Handle(old(View()), t, isDone)
    {
      hide Count, LastFence, Trim, Ticks, WithoutFences, Contains, Emit, Flush;
      ghost var s0 := View();
      if Contains(t, "<think>") {
        msgType := "think";
      }
      assert View() == Thoughts(s0, t);
      var typeChange := Contains(t, "</think>");
      var text := t;
      var codeBlockBoundary := Count(text) % 2 != 0;
      if !codeBlock && codeBlockBoundary {
        ChatEmit(false);
      }
      if codeBlock && codeBlockBoundary {
        CountNeedsFence(text);
        var boundary := LastFence(text);
        builder := builder + text[..boundary] + FENCE;
        text := Trim(text[boundary + 3..]);
        ChatEmit(isDone && text == "");
      }
      codeBlock := codeBlock != codeBlockBoundary;
      inlineCode := inlineCode != (Ticks(WithoutFences(text)) % 2 != 0);
      builder := builder + text;
      assert Handle(s0, t, isDone) == Flush(View(), text, typeChange, isDone);
      BreakNaturally(text, typeChange, isDone);
    }

    /** A whole reply, chunk by chunk. */
    method Stream(chunks: seq<string>, last: string)
      requires View() == START
      modifies this
      ensures Strip(Contents(emitted) + builder) == Strip(Text(chunks) + last)
      ensures done <==> EndsOutside(chunks, last)
      ensures done ==> builder == "" && |Dones(emitted)| == 1 && emitted[|emitted| - 1].done
      ensures !done ==> Dones(emitted) == []
      ensures AllEven(emitted) <==> AllSendEven(chunks) && SendsEven(After(chunks), last, true)
      ensures AlwaysWhole(chunks) && Whole(View()) <==> AllFit(chunks) && Seam(After(chunks), last)
    {
      hide Handle, Strip, Contents, Whole, Seam, AllFit, AlwaysWhole, EndsOutside, Dones,
           AllEven, SendsEven, AllSendEven;
      var i := 0;
      assert chunks[..0] == [];
      while i < |chunks|
        invariant 0 <= i <= |chunks| && View() == After(chunks[..i])
      {
        StreamHandler(chunks[i], false);
        assert chunks[..i + 1][..i] == chunks[..i];
        i := i + 1;
      }
      assert chunks[..i] == chunks;
      StreamHandler(last, true);
      StreamIsKept(chunks, last);
      StreamEnds(chunks, last);
      RecordsEvenIffSentEven(chunks, last);
      BlocksWholeIffChunksFit(chunks, last);
    }

    /** The switch at the end of the handler. */
    method BreakNaturally(text: string, typeChange: bool, isDone: bool)
      modifies this
      ensures View() == Flush(old(View()), text, typeChange, isDone)
    {
      if codeBlock || inlineCode {
        // a code block is not broken up
      } else if isDone || typeChange || (text != "" && text[|text| - 1] == '\n') || Runes.Utf8Length(builder) > LIMIT {
        ChatEmit(isDone);
      }
      if typeChange {
        msgType := "";
      }
    }
  }

  // ------------------------------------------------------------------
  // Fences
  // ------------------------------------------------------------------

  /** No run of back quotes goes on from one text into the other. */
  predicate Joint(a: string, b: string) {
    a == "" || b == "" || a[|a| - 1] != '`' || b[0] != '`'
  }

  lemma {:induction false} CountSum(a: string, b: string)
    requires Joint(a, b)
    ensures Count(a + b) == Count(a) + Count(b)
    decreases |a|
  {
    if a == "" {
      assert a + b == b;
    } else if HasFenceAt(a, 0) {
      assert (a + b)[3..] == a[3..] + b;
      CountSum(a[3..], b);
    } else {
      NoFenceAcross(a, b);
      assert (a + b)[1..] == a[1..] + b;
      CountSum(a[1..], b);
      CountTail(a);
    }
  }

  lemma CountTail(a: string)
    requires a != "" && !HasFenceAt(a, 0)
    ensures Count(a) == Count(a[1..])
  {
  }

  lemma NoFenceAcross(a: string, b: string)
    requires Joint(a, b) && a != "" && !HasFenceAt(a, 0)
    ensures !HasFenceAt(a + b, 0)
  {
  }

  lemma {:induction false} CountNeedsFence(s: string)
    ensures Count(s) > 0 ==> LastFence(s) >= 0
    decreases |s|
  {
    if |s| >= 3 && !HasFenceAt(s, 0) {
      CountNeedsFence(s[1..]);
      var i := LastFence(s[1..]);
      assert i >= 0 ==> HasFenceAt(s, i + 1);
    }
  }

  /** What follows the last fence holds none, and no back quote touches the cut. */
  lemma AfterLastFence(s: string)
    requires LastFence(s) >= 0
    ensures var b := LastFence(s);
            && Joint(s[..b + 3], s[b + 3..]) && Count(s[b + 3..]) == 0
            && s[..b] + FENCE == s[..b + 3]
            && Count(s) == Count(s[..b + 3])
  {
    var b := LastFence(s);
    var rest := s[b + 3..];
    assert rest != "" && rest[0] == '`' ==> HasFenceAt(s, b + 1);
    CountNeedsFence(rest);
    assert LastFence(rest) >= 0 ==> HasFenceAt(s, b + 3 + LastFence(rest));
    CountSum(s[..b + 3], rest);
    assert s[..b + 3] + rest == s;
  }

  // ------------------------------------------------------------------
  // White space
  // ------------------------------------------------------------------

  /** The text without white space. */
  function Strip(s: string): string {
    if s == "" then "" else (if IsSpace(s[0]) then "" else [s[0]]) + Strip(s[1..])
  }

  lemma {:induction false} StripSum(a: string, b: string)
    ensures Strip(a + b) == Strip(a) + Strip(b)
    decreases |a|
  {
    if a == "" {
      assert a + b == b;
    } else {
      assert (a + b)[1..] == a[1..] + b;
      StripSum(a[1..], b);
    }
  }

  lemma {:induction false} TrimLeftKeeps(s: string)
    ensures Strip(TrimLeft(s)) == Strip(s) && Count(TrimLeft(s)) == Count(s)
    decreases |s|
  {
    if s != "" && IsSpace(s[0]) {
      TrimLeftKeeps(s[1..]);
      assert !HasFenceAt(s, 0);
      CountTail(s);
    }
  }

  lemma {:induction false} TrimRightKeeps(s: string)
    ensures Strip(TrimRight(s)) == Strip(s) && Count(TrimRight(s)) == Count(s)
    decreases |s|
  {
    if s != "" && IsSpace(s[|s| - 1]) {
      var n := |s| - 1;
      TrimRightKeeps(s[..n]);
      assert s == s[..n] + [s[n]];
      StripSum(s[..n], [s[n]]);
      CountSum(s[..n], [s[n]]);
    }
  }

  lemma TrimKeeps(s: string)
    ensures Strip(Trim(s)) == Strip(s) && Count(Trim(s)) == Count(s)
  {
    TrimLeftKeeps(s);
    TrimRightKeeps(TrimLeft(s));
  }

  /** Trimming takes white space off both ends, all of it and nothing else. */
  lemma TrimIs(s: string) returns (i: nat, j: nat)
    ensures i <= j <= |s| && Trim(s) == s[i..j]
    ensures forall k :: 0 <= k < i || j <= k < |s| ==> IsSpace(s[k])
    ensures i < j ==> !IsSpace(s[i]) && !IsSpace(s[j - 1])
  {
    i := TrimLeftIs(s);
    j := TrimRightIs(TrimLeft(s));
    assert forall k :: i <= k < |s| ==> s[k] == TrimLeft(s)[k - i];
    j := i + j;
  }

  lemma {:induction false} TrimLeftIs(s: string) returns (i: nat)
    ensures i <= |s| && TrimLeft(s) == s[i..]
    ensures forall k :: 0 <= k < i ==> IsSpace(s[k])
    ensures i < |s| ==> !IsSpace(s[i])
    decreases |s|
  {
    i := 0;
    if s != "" && IsSpace(s[0]) {
      i := TrimLeftIs(s[1..]);
      i := i + 1;
    }
  }

  lemma {:induction false} TrimRightIs(s: string) returns (j: nat)
    ensures j <= |s| && TrimRight(s) == s[..j]
    ensures forall k :: j <= k < |s| ==> IsSpace(s[k])
    ensures 0 < j ==> !IsSpace(s[j - 1])
    decreases |s|
  {
    j := |s|;
    if s != "" && IsSpace(s[|s| - 1]) {
      j := TrimRightIs(s[..|s| - 1]);
    }
  }

  /** A back quote is either part of a fence or counts by itself. */
  lemma {:induction false} TicksAndFences(s: string)
    ensures Ticks(s) == 3 * Count(s) + Ticks(WithoutFences(s))
    decreases |s|
  {
    if |s| >= 3 {
      if HasFenceAt(s, 0) {
        TicksAndFences(s[3..]);
        assert s[1..][1..] == s[2..] && s[2..][1..] == s[3..];
        assert Ticks(s) == 1 + Ticks(s[1..]) && Ticks(s[1..]) == 1 + Ticks(s[2..]);
        assert Ticks(s[2..]) == 1 + Ticks(s[3..]);
      } else {
        TicksAndFences(s[1..]);
        assert ([s[0]] + WithoutFences(s[1..]))[1..] == WithoutFences(s[1..]);
      }
    }
  }

  // ------------------------------------------------------------------
  // What every chunk keeps
  // ------------------------------------------------------------------

  function Contents(records: seq<Record>): string {
    if records == [] then ""
    else Contents(records[..|records| - 1]) + records[|records| - 1].content
  }

  predicate AllEven(records: seq<Record>) {
    forall i :: 0 <= i < |records| ==> Count(records[i].content) % 2 == 0
  }

  /** Only the last record may be a done record, and it is one exactly when the stream is done. */
  predicate DoneIsLast(s: State) {
    && (forall i :: 0 <= i < |s.emitted| - 1 ==> !s.emitted[i].done)
    && (s.done <==> s.emitted != [] && s.emitted[|s.emitted| - 1].done)
  }

  predicate Odd(s: string) {
    Count(s) % 2 != 0
  }

  /** The flag does not say whether the buffer ends inside a code block. */
  predicate Off(s: State) {
    s.codeBlock != Odd(s.builder)
  }

  /** No record cuts a code block, and the buffer ends inside one exactly when the flag says so. */
  predicate Whole(s: State) {
    !Off(s) && AllEven(s.emitted)
  }

  /** All that has been emitted, and what is still buffered. */
  function Total(s: State): string {
    Contents(s.emitted) + s.builder
  }

  // ------------------------------------------------------------------
  // Seams
  // ------------------------------------------------------------------

  /** Nothing but back quotes in a part of a text. */
  predicate TicksFrom(s: string, from: nat, to: nat)
    requires from <= to <= |s|
  {
    forall i :: from <= i < to ==> s[i] == '`'
  }

  predicate Run(s: string) {
    TicksFrom(s, 0, |s|)
  }

  /** The length of the run of back quotes a text starts with. */
  function Lead(s: string): (n: nat)
    ensures n <= |s| && TicksFrom(s, 0, n)
    ensures n < |s| ==> s[n] != '`'
  {
    if s == "" || s[0] != '`' then 0 else 1 + Lead(s[1..])
  }

  /** The length of the run of back quotes a text ends with. */
  function Trail(s: string): (n: nat)
    ensures n <= |s| && TicksFrom(s, |s| - n, |s|)
    ensures n < |s| ==> s[|s| - n - 1] != '`'
  {
    if s == "" || s[|s| - 1] != '`' then 0 else Trail(s[..|s| - 1]) + 1
  }

  /** Where two texts meet, their runs of back quotes form no fence that neither has alone. */
  predicate Fits(a: string, b: string) {
    Trail(a) % 3 + Lead(b) % 3 < 3
  }

  lemma {:induction false} CountRun(s: string)
    requires Run(s)
    ensures Count(s) == |s| / 3
    decreases |s|
  {
    if |s| >= 3 {
      CountRun(s[3..]);
    }
  }

  lemma CountPieces(front: string, p: string, q: string, back: string)
    requires Run(p) && Run(q) && Joint(front, "`") && Joint("`", back)
    ensures Count(front + p) == Count(front) + |p| / 3
    ensures Count(q + back) == |q| / 3 + Count(back)
    ensures Count(front + ((p + q) + back)) == Count(front) + (|p| + |q|) / 3 + Count(back)
  {
    hide Count;
    CountRun(p);
    CountRun(q);
    CountRun(p + q);
    CountSum(front, p);
    CountSum(q, back);
    CountSum(p + q, back);
    CountSum(front, (p + q) + back);
  }

  /** The fences of two texts add up but for one that their runs may form together. */
  lemma CountSeam(a: string, b: string)
    ensures Count(a + b) == Count(a) + Count(b) + (if Fits(a, b) then 0 else 1)
  {
    hide Count, Trail, Lead, Run, TicksFrom;
    var k, n := |a| - Trail(a), Lead(b);
    PartIsRun(a, k, |a|);
    PartIsRun(b, 0, n);
    assert a[k..|a|] == a[k..] && b[0..n] == b[..n];
    CountPieces(a[..k], a[k..], b[..n], b[n..]);
    Regroup(a, k, b, n);
  }

  lemma PartIsRun(s: string, from: nat, to: nat)
    requires from <= to <= |s| && TicksFrom(s, from, to)
    ensures Run(s[from..to])
  {
  }

  lemma Regroup(a: string, k: nat, b: string, n: nat)
    requires k <= |a| && n <= |b|
    ensures a[..k] + a[k..] == a && b[..n] + b[n..] == b
    ensures a[..k] + ((a[k..] + b[..n]) + b[n..]) == a + b
  {
  }

  /** The two texts can be put together without upsetting the parity of fences. */
  lemma AddsUpIffFits(a: string, b: string)
    ensures (Odd(a + b) <==> (Odd(a) != Odd(b))) <==> Fits(a, b)
  {
    hide Count, Fits;
    CountSeam(a, b);
  }

  /**
   What a chunk must satisfy, given the buffer it meets. A chunk that opens a block starts an
   empty buffer and always fits.
   */
  predicate Seam(s: State, t: string) {
    (Odd(t) && !s.codeBlock) || Fits(s.builder, t)
  }

  lemma {:induction false} LeadIs(s: string, n: nat)
    requires n <= |s| && TicksFrom(s, 0, n) && (n < |s| ==> s[n] != '`')
    ensures Lead(s) == n
    decreases n
  {
    if n > 0 {
      LeadIs(s[1..], n - 1);
    }
  }

  /** Cutting a text after its last fence leaves the run it starts with. */
  lemma LeadOfHead(t: string)
    requires LastFence(t) >= 0
    ensures Lead(t[..LastFence(t) + 3]) == Lead(t)
  {
    hide Lead, LastFence, Count;
    var b := LastFence(t);
    var head := t[..b + 3];
    AfterLastFence(t);
    var n := Lead(head);
    assert head[b + 2] == '`';
    LeadIs(t, n);
  }

  // ------------------------------------------------------------------
  // What every chunk does
  // ------------------------------------------------------------------

  lemma EmptyIsEven()
    ensures !Odd("")
  {
  }

  lemma EmitFacts(s: State, done: bool)
    requires !s.done && DoneIsLast(s)
    ensures var r := Emit(s, done);
            && Total(r) == Total(s) && r.builder == "" && DoneIsLast(r)
            && (AllEven(r.emitted) <==> AllEven(s.emitted) && !Odd(s.builder))
  {
    hide Count;
    var r := Emit(s, done);
    assert r.emitted[..|s.emitted|] == s.emitted;
    assert r.emitted[|s.emitted|].content == s.builder;
    assert forall i :: 0 <= i < |s.emitted| ==> r.emitted[i] == s.emitted[i];
  }

  lemma BufferFacts(s: State, text: string)
    ensures Off(Buffer(s, text, Odd(text))) <==> Off(s) == Fits(s.builder, text)
    ensures Total(Buffer(s, text, Odd(text))) == Total(s) + text
  {
    hide Count, Contents, Ticks, WithoutFences, Fits;
    AddsUpIffFits(s.builder, text);
    assert Contents(s.emitted) + (s.builder + text) == Contents(s.emitted) + s.builder + text;
  }

  /** A chunk that opens a block meets an empty buffer. */
  lemma OpenFacts(s: State, text: string)
    requires s.builder == "" && !s.codeBlock && Odd(text)
    ensures !Off(Buffer(s, text, true))
    ensures Total(Buffer(s, text, true)) == Total(s) + text
  {
    hide Count, Contents, Ticks, WithoutFences;
    assert s.builder + text == text;
  }

  lemma FlushFacts(s: State, text: string, typeChange: bool, done: bool)
    requires DoneIsLast(s) && (s.done ==> done && s.builder == "")
    ensures var r, sent := Flush(s, text, typeChange, done), Breaks(s, text, typeChange, done);
            && (AllEven(r.emitted) <==> AllEven(s.emitted) && (sent ==> !Off(s)))
            && (Off(r) <==> Off(s) && !sent)
            && DoneIsLast(r) && Total(r) == Total(s)
            && (r.done <==> s.done || (done && !s.codeBlock && !s.inlineCode))
            && (r.done ==> r.builder == "")
            && r.codeBlock == s.codeBlock && r.inlineCode == s.inlineCode
  {
    hide Count, Contents;
    EmptyIsEven();
    if !s.done && !s.codeBlock {
      EmitFacts(s, done);
    }
  }

  /** Up to its last fence the chunk completes the block in the buffer, if it fits. */
  lemma HeadFits(a: string, t: string)
    requires Odd(t) && LastFence(t) >= 0
    ensures !Odd(a + t[..LastFence(t) + 3]) <==> Odd(a) == Fits(a, t)
  {
    hide Count, LastFence, Lead, Trail;
    AfterLastFence(t);
    LeadOfHead(t);
    AddsUpIffFits(a, t[..LastFence(t) + 3]);
  }

  lemma CloseFacts(s: State, t: string, done: bool)
    requires DoneIsLast(s) && !s.done && s.codeBlock && Odd(t) && LastFence(t) >= 0
    ensures var (r, rest) := CloseBlock(s, t, done);
            && (AllEven(r.emitted) <==> AllEven(s.emitted) && Off(s) != Fits(s.builder, t))
            && r.builder == "" && DoneIsLast(r) && r.codeBlock && r.inlineCode == s.inlineCode
            && rest == Trim(t[LastFence(t) + 3..]) && r.done == (done && rest == "") && Count(rest) == 0
            && Total(r) == Total(s) + t[..LastFence(t) + 3]
  {
    hide Count, Contents, LastFence, Trim, Fits, Odd, DoneIsLast, AllEven;
    var b := LastFence(t);
    var head := t[..b + 3];
    AfterLastFence(t);
    TrimKeeps(t[b + 3..]);
    HeadFits(s.builder, t);
    var s1 := s.(builder := s.builder + head);
    assert DoneIsLast(s1) by { SameDone(s, s1); }
    assert s.builder + t[..b] + FENCE == s.builder + (t[..b] + FENCE);
    EmitFacts(s1, done && Trim(t[b + 3..]) == "");
    assert Total(s1) == Total(s) + head;
  }

  lemma SameDone(s: State, r: State)
    requires s.emitted == r.emitted && s.done == r.done && DoneIsLast(s)
    ensures DoneIsLast(r)
  {
  }

  /** After a block is closed the buffer holds the rest, outside of any block. */
  lemma RestFacts(s: State, rest: string)
    requires s.builder == "" && s.codeBlock && Count(rest) == 0
    ensures !Off(Buffer(s, rest, true))
    ensures Total(Buffer(s, rest, true)) == Total(s) + rest
  {
    hide Ticks, WithoutFences;
    assert s.builder + rest == rest;
  }

  /** Where the handler stands when it comes to its last part. */
  function BeforeFlush(s: State, t: string, done: bool): (State, string) {
    var s1 := Thoughts(s, t);
    if Odd(t) && s.codeBlock then
      assert LastFence(t) >= 0 by { CountNeedsFence(t); }
      var (s2, rest) := CloseBlock(s1, t, done);
      (Buffer(s2, rest, true), rest)
    else (Buffer(if Odd(t) then Emit(s1, false) else s1, t, Odd(t)), t)
  }

  lemma ThoughtsFacts(s: State, t: string)
    ensures Thoughts(s, t) == s.(msgType := Thoughts(s, t).msgType)
  {
  }

  lemma OddHasFence(t: string)
    requires Odd(t)
    ensures LastFence(t) >= 0
  {
    CountNeedsFence(t);
  }

  /** What of a chunk is seen outside of the block it may close. */
  function Visible(inBlock: bool, t: string): string {
    if Odd(t) && inBlock then
      assert LastFence(t) >= 0 by { CountNeedsFence(t); }
      Trim(t[LastFence(t) + 3..])
    else t
  }

  /** The chunk, as it goes into the records and the buffer. */
  function Taken(inBlock: bool, t: string): string {
    if Odd(t) && inBlock then
      assert LastFence(t) >= 0 by { CountNeedsFence(t); }
      t[..LastFence(t) + 3] + Visible(inBlock, t)
    else t
  }

  predicate OddTicks(s: string) {
    Ticks(WithoutFences(s)) % 2 != 0
  }

  /** A chunk closes a block and nothing but white space follows. */
  predicate ClosesClean(inBlock: bool, t: string) {
    inBlock && Odd(t) && Visible(inBlock, t) == ""
  }

  /** A chunk without a border of a block is sent at once, with what was buffered before it. */
  predicate Sends(s: State, t: string, done: bool) {
    Breaks(Buffer(s, t, false), t, Contains(t, "</think>"), done)
  }

  /**
   What a chunk must satisfy so that no record it sends cuts a block. A chunk that opens a block
   sends the buffer as it is; any other that sends something adds to the buffer first, and one
   fence made or broken there must go with one made or broken before.
   */
  predicate SendsEven(s: State, t: string, done: bool) {
    if Odd(t) && !s.codeBlock then !Off(s)
    else Odd(t) || Sends(s, t, done) ==> Off(s) != Fits(s.builder, t)
  }

  lemma BeforeFlushFacts(s: State, t: string, done: bool)
    requires DoneIsLast(s) && !s.done
    ensures var (r, text) := BeforeFlush(s, t, done);
            && (if Odd(t) then
                  !Off(r) && (AllEven(r.emitted) <==> AllEven(s.emitted) && SendsEven(s, t, done))
                else (Off(r) <==> Off(s) == Fits(s.builder, t)) && r.emitted == s.emitted)
            && DoneIsLast(r) && Total(r) == Total(s) + Taken(s.codeBlock, t)
            && text == Visible(s.codeBlock, t)
            && r.codeBlock == (s.codeBlock != Odd(t)) && r.inlineCode == (s.inlineCode != OddTicks(text))
            && (r.done <==> done && ClosesClean(s.codeBlock, t)) && (r.done ==> r.builder == "")
  {
    hide Count, Contents, LastFence, Trim, Contains, Thoughts, Odd, CloseBlock, Fits, Ticks, WithoutFences;
    var s1 := Thoughts(s, t);
    ThoughtsFacts(s, t);
    if Odd(t) && s.codeBlock {
      OddHasFence(t);
      CloseFacts(s1, t, done);
      var (s2, rest) := CloseBlock(s1, t, done);
      RestFacts(s2, rest);
    } else if Odd(t) {
      EmitFacts(s1, false);
      OpenFacts(Emit(s1, false), t);
    } else {
      BufferFacts(s1, t);
    }
  }

  /** A chunk without a border: whether it is sent, as seen before and after it is buffered. */
  lemma SendsIs(s: State, t: string, done: bool)
    requires !Odd(t)
    ensures var (r, text) := BeforeFlush(s, t, done);
            Sends(s, t, done) <==> Breaks(r, text, Contains(t, "</think>"), done)
  {
    hide Contains, Count, Ticks, WithoutFences, Runes.Utf8Length;
    ThoughtsFacts(s, t);
  }

  /**
   One chunk, in the middle of the stream or at its end: which text goes on, what the flags say,
   whether the stream is done, and whether the records stay even and the flag right.
   */
  lemma HandleFacts(s: State, t: string, done: bool)
    requires DoneIsLast(s) && !s.done
    ensures var r := Handle(s, t, done);
            && (AllEven(r.emitted) <==> AllEven(s.emitted) && SendsEven(s, t, done))
            && (Off(r) <==> !Odd(t) && !Sends(s, t, done) && Off(s) == Fits(s.builder, t))
            && DoneIsLast(r) && Total(r) == Total(s) + Taken(s.codeBlock, t)
            && r.codeBlock == (s.codeBlock != Odd(t))
            && r.inlineCode == (s.inlineCode != OddTicks(Visible(s.codeBlock, t)))
            && (r.done ==> r.builder == "")
            && (r.done <==> done && ((!r.codeBlock && !r.inlineCode) || ClosesClean(s.codeBlock, t)))
  {
    hide Total, Taken, Visible, OddTicks, ClosesClean, Off, DoneIsLast, AllEven, Sends, Breaks, Fits,
         Buffer, CloseBlock, Thoughts, Flush, Trim, LastFence, Contains, Emit;
    BeforeFlushFacts(s, t, done);
    var (r, text) := BeforeFlush(s, t, done);
    FlushFacts(r, text, Contains(t, "</think>"), done);
    assert Handle(s, t, done) == Flush(r, text, Contains(t, "</think>"), done);
    if !Odd(t) {
      SendsIs(s, t, done);
    }
  }

  /** Where all is whole, it stays so exactly when the chunk fits the buffer it meets. */
  lemma StaysWhole(s: State, t: string, done: bool)
    requires DoneIsLast(s) && !s.done && Whole(s)
    ensures Whole(Handle(s, t, done)) <==> Seam(s, t)
  {
    hide Handle, Off, AllEven, DoneIsLast, Total, Taken, Visible, OddTicks, ClosesClean, Sends, Fits;
    HandleFacts(s, t, done);
  }

  // ------------------------------------------------------------------
  // The main results, over every stream
  // ------------------------------------------------------------------

  function Text(chunks: seq<string>): string {
    if chunks == [] then "" else Text(chunks[..|chunks| - 1]) + chunks[|chunks| - 1]
  }

  /** The state after some chunks, none of them the last. */
  function After(chunks: seq<string>): State {
    if chunks == [] then START else Handle(After(chunks[..|chunks| - 1]), chunks[|chunks| - 1], false)
  }

  /** The state when the stream is over. */
  function AtEnd(chunks: seq<string>, last: string): State {
    Handle(After(chunks), last, true)
  }

  lemma StartFacts()
    ensures Whole(START) && DoneIsLast(START) && Total(START) == ""
  {
  }

  lemma {:induction false} NotDoneYet(chunks: seq<string>)
    ensures DoneIsLast(After(chunks)) && !After(chunks).done
    decreases |chunks|
  {
    hide Handle;
    if chunks == [] {
    } else {
      var n := |chunks| - 1;
      NotDoneYet(chunks[..n]);
      HandleFacts(After(chunks[..n]), chunks[n], false);
    }
  }

  // --- nothing is lost ---

  lemma TakenIsChunk(inBlock: bool, t: string)
    ensures Strip(Taken(inBlock, t)) == Strip(t)
  {
    hide Strip, LastFence, Trim;
    if Odd(t) && inBlock {
      OddHasFence(t);
      var b := LastFence(t) + 3;
      TrimKeeps(t[b..]);
      StripSum(t[..b], Trim(t[b..]));
      StripSum(t[..b], t[b..]);
      assert t[..b] + t[b..] == t;
    }
  }

  lemma ChunkIsKept(s: State, input: string, t: string, done: bool)
    requires DoneIsLast(s) && !s.done && Strip(Total(s)) == Strip(input)
    ensures Strip(Total(Handle(s, t, done))) == Strip(input + t)
  {
    hide Handle, Taken, Strip, Total, Whole, DoneIsLast, Seam;
    HandleFacts(s, t, done);
    TakenIsChunk(s.codeBlock, t);
    StripSum(Total(s), Taken(s.codeBlock, t));
    StripSum(input, t);
  }

  lemma {:induction false} TextIsKept(chunks: seq<string>)
    ensures Strip(Total(After(chunks))) == Strip(Text(chunks))
    decreases |chunks|
  {
    hide Handle, Strip, Total;
    if chunks == [] {
      StartFacts();
    } else {
      var n := |chunks| - 1;
      TextIsKept(chunks[..n]);
      NotDoneYet(chunks[..n]);
      ChunkIsKept(After(chunks[..n]), Text(chunks[..n]), chunks[n], false);
    }
  }

  /** Of every stream, nothing is lost or added but white space, and a done record is the last. */
  lemma StreamIsKept(chunks: seq<string>, last: string)
    ensures var r := AtEnd(chunks, last);
            && Strip(Contents(r.emitted) + r.builder) == Strip(Text(chunks) + last)
            && DoneIsLast(r)
  {
    hide Handle, Strip;
    TextIsKept(chunks);
    NotDoneYet(chunks);
    ChunkIsKept(After(chunks), Text(chunks), last, true);
    HandleFacts(After(chunks), last, true);
  }

  // --- code blocks ---

  /** Every chunk up to some point, the last one aside, fits the buffer it meets. */
  predicate AllFit(chunks: seq<string>) {
    forall i :: 0 <= i < |chunks| ==> Seam(After(chunks[..i]), chunks[i])
  }

  predicate AlwaysWhole(chunks: seq<string>) {
    forall i :: 0 <= i <= |chunks| ==> Whole(After(chunks[..i]))
  }

  lemma {:induction false} WholeIffFit(chunks: seq<string>)
    ensures AlwaysWhole(chunks) <==> AllFit(chunks)
    decreases |chunks|
  {
    hide Handle, Whole, Seam, After;
    if chunks == [] {
      StartIsAfter();
      assert chunks[..0] == [];
    } else {
      var n := |chunks| - 1;
      var front := chunks[..n];
      WholeIffFit(front);
      assert forall i :: 0 <= i <= n ==> front[..i] == chunks[..i];
      assert chunks[..n + 1] == chunks && front[..n] == front;
      AfterStep(chunks);
      NotDoneYet(front);
      if Whole(After(front)) {
        StaysWhole(After(front), chunks[n], false);
      }
      assert AlwaysWhole(front) ==> Whole(After(front));
      assert AlwaysWhole(chunks) <==> AlwaysWhole(front) && Whole(After(chunks));
      assert AllFit(chunks) <==> AllFit(front) && Seam(After(front), chunks[n]);
    }
  }

  lemma StartIsAfter()
    ensures After([]) == START && Whole(START)
  {
  }

  lemma AfterStep(chunks: seq<string>)
    requires chunks != []
    ensures After(chunks) == Handle(After(chunks[..|chunks| - 1]), chunks[|chunks| - 1], false)
  {
  }

  /**
   Code blocks stay whole throughout a stream, in every record and in the buffer after every
   chunk, if and only if every chunk fits the buffer it meets.
   */
  lemma BlocksWholeIffChunksFit(chunks: seq<string>, last: string)
    ensures AlwaysWhole(chunks) && Whole(AtEnd(chunks, last))
            <==> AllFit(chunks) && Seam(After(chunks), last)
  {
    hide Handle, Whole, Seam, After;
    WholeIffFit(chunks);
    NotDoneYet(chunks);
    assert chunks[..|chunks|] == chunks;
    if Whole(After(chunks)) {
      StaysWhole(After(chunks), last, true);
    }
  }

  /** Every chunk up to some point, the last one aside, sends even records. */
  predicate AllSendEven(chunks: seq<string>) {
    forall i :: 0 <= i < |chunks| ==> SendsEven(After(chunks[..i]), chunks[i], false)
  }

  lemma {:induction false} EvenIffSendEven(chunks: seq<string>)
    ensures AllEven(After(chunks).emitted) <==> AllSendEven(chunks)
    decreases |chunks|
  {
    hide Handle, AllEven, SendsEven, After;
    if chunks == [] {
      StartIsAfter();
    } else {
      var n := |chunks| - 1;
      var front := chunks[..n];
      EvenIffSendEven(front);
      assert forall i :: 0 <= i < n ==> front[..i] == chunks[..i];
      AfterStep(chunks);
      NotDoneYet(front);
      HandleFacts(After(front), chunks[n], false);
      assert AllSendEven(chunks) <==> AllSendEven(front) && SendsEven(After(front), chunks[n], false);
    }
  }

  /**
   No record of a stream cuts a code block if and only if every chunk that sends one meets a
   buffer in which the fences made and broken at seams, its own included, even out.
   */
  lemma RecordsEvenIffSentEven(chunks: seq<string>, last: string)
    ensures AllEven(AtEnd(chunks, last).emitted)
            <==> AllSendEven(chunks) && SendsEven(After(chunks), last, true)
  {
    hide Handle, AllEven, SendsEven, After;
    EvenIffSendEven(chunks);
    NotDoneYet(chunks);
    HandleFacts(After(chunks), last, true);
  }

  /**
   No run of back quotes goes on into the next chunk, white space in between not counting:
   the chunker trims, and may bring the two parts together.
   */
  predicate Apart(before: string, t: string) {
    var b := Strip(before);
    b == "" || t == "" || b[|b| - 1] != '`' || t[0] != '`'
  }

  predicate AllApart(chunks: seq<string>) {
    forall i :: 0 <= i < |chunks| ==> Apart(Text(chunks[..i]), chunks[i])
  }

  lemma StripLast(s: string)
    requires s != "" && !IsSpace(s[|s| - 1])
    ensures Strip(s) != "" && Strip(s)[|Strip(s)| - 1] == s[|s| - 1]
  {
    var n := |s| - 1;
    assert s == s[..n] + [s[n]];
    StripSum(s[..n], [s[n]]);
    assert Strip([s[n]]) == [s[n]];
  }

  lemma ApartFits(s: State, input: string, t: string)
    requires Strip(Total(s)) == Strip(input) && Apart(input, t)
    ensures Seam(s, t)
  {
    hide Contents, Count, Strip, Fits;
    if s.builder != "" && s.builder[|s.builder| - 1] == '`' {
      StripLast(Total(s));
    }
    JointFits(s.builder, t);
  }

  lemma JointFits(a: string, b: string)
    requires Joint(a, b)
    ensures Fits(a, b)
  {
    hide Trail, Lead, TicksFrom;
    NoRun(a);
    NoRun(b);
  }

  lemma NoRun(s: string)
    ensures s == "" || s[|s| - 1] != '`' ==> Trail(s) == 0
    ensures s == "" || s[0] != '`' ==> Lead(s) == 0
  {
    hide TicksFrom;
  }

  /** It is enough that chunks are apart, which can be read off the input alone. */
  lemma ApartIsEnough(chunks: seq<string>, last: string)
    requires AllApart(chunks) && Apart(Text(chunks), last)
    ensures AlwaysWhole(chunks) && Whole(AtEnd(chunks, last))
  {
    hide Handle, Whole, Apart, Strip, Seam, Total;
    forall i | 0 <= i < |chunks|
      ensures Seam(After(chunks[..i]), chunks[i])
    {
      TextIsKept(chunks[..i]);
      ApartFits(After(chunks[..i]), Text(chunks[..i]), chunks[i]);
    }
    TextIsKept(chunks);
    ApartFits(After(chunks), Text(chunks), last);
    BlocksWholeIffChunksFit(chunks, last);
  }

  // --- the end of a stream ---

  /** An odd number of chunks had an odd number of fences. */
  predicate InBlock(chunks: seq<string>) {
    chunks != [] && InBlock(chunks[..|chunks| - 1]) != Odd(chunks[|chunks| - 1])
  }

  /** The handler's idea of inline code: it counts back quotes in code blocks too. */
  predicate InInline(chunks: seq<string>) {
    chunks != [] &&
    InInline(chunks[..|chunks| - 1])
    != OddTicks(Visible(InBlock(chunks[..|chunks| - 1]), chunks[|chunks| - 1]))
  }

  lemma {:induction false} FlagsAre(chunks: seq<string>)
    ensures After(chunks).codeBlock == InBlock(chunks)
    ensures After(chunks).inlineCode == InInline(chunks)
    decreases |chunks|
  {
    hide Handle, Odd, OddTicks, Visible, Whole, DoneIsLast;
    if chunks == [] {
    } else {
      var n := |chunks| - 1;
      FlagsAre(chunks[..n]);
      NotDoneYet(chunks[..n]);
      HandleFacts(After(chunks[..n]), chunks[n], false);
    }
  }

  /** The number of fences that are cut in two by a border between chunks. */
  function CutFences(chunks: seq<string>): nat {
    if chunks == [] then 0
    else
      var n := |chunks| - 1;
      CutFences(chunks[..n]) + (if Fits(Text(chunks[..n]), chunks[n]) then 0 else 1)
  }

  /** The flag is the parity of the fences in the text, those that a border cuts not counting. */
  lemma {:induction false} InBlockIsParity(chunks: seq<string>)
    ensures InBlock(chunks) <==> (Count(Text(chunks)) - CutFences(chunks)) % 2 != 0
    decreases |chunks|
  {
    hide Fits, Count;
    if chunks == [] {
      EmptyIsEven();
    } else {
      var n := |chunks| - 1;
      InBlockIsParity(chunks[..n]);
      CountSeam(Text(chunks[..n]), chunks[n]);
    }
  }

  function Dones(records: seq<Record>): seq<Record> {
    if records == [] then []
    else Dones(records[..|records| - 1]) + (if records[|records| - 1].done then [records[|records| - 1]] else [])
  }

  lemma {:induction false} OneDone(records: seq<Record>)
    requires forall i :: 0 <= i < |records| - 1 ==> !records[i].done
    ensures |Dones(records)| == if records != [] && records[|records| - 1].done then 1 else 0
    decreases |records|
  {
    if records != [] {
      OneDone(records[..|records| - 1]);
    }
  }

  /** The input after which the handler ends the stream. */
  predicate EndsOutside(chunks: seq<string>, last: string) {
    (!InBlock(chunks + [last]) && !InInline(chunks + [last])) || ClosesClean(InBlock(chunks), last)
  }

  /**
   Every stream: it ends with one done record and an empty buffer if and only if the input ends
   outside of blocks and of what the handler takes for inline code, or with a closing fence.
   */
  lemma StreamEnds(chunks: seq<string>, last: string)
    ensures var r := AtEnd(chunks, last);
            && (r.done <==> EndsOutside(chunks, last))
            && (r.done ==> r.builder == "" && |Dones(r.emitted)| == 1 && r.emitted[|r.emitted| - 1].done)
            && (!r.done ==> Dones(r.emitted) == [])
  {
    hide Handle, Odd, OddTicks, Visible, Whole;
    FlagsAre(chunks);
    NotDoneYet(chunks);
    HandleFacts(After(chunks), last, true);
    assert (chunks + [last])[..|chunks|] == chunks;
    OneDone(AtEnd(chunks, last).emitted);
  }

  // --- when records are sent, and of which kind ---

  predicate IsAt(s: string, t: string, i: int) {
    0 <= i && i + |t| <= |s| && s[i..i + |t|] == t
  }

  ghost predicate Has(s: string, t: string) {
    exists i :: IsAt(s, t, i)
  }

  lemma AtShift(s: string, t: string, i: int)
    requires s != "" && 0 < i
    ensures IsAt(s, t, i) <==> IsAt(s[1..], t, i - 1)
  {
    if i + |t| <= |s| {
      assert s[i..i + |t|] == s[1..][i - 1..i - 1 + |t|];
    }
  }

  lemma {:induction false} ContainsIffHas(s: string, t: string)
    ensures Contains(s, t) <==> Has(s, t)
    decreases |s|
  {
    if |t| <= |s| {
      if s[..|t|] == t {
        assert IsAt(s, t, 0);
      } else if s != "" {
        ContainsIffHas(s[1..], t);
        if i :| IsAt(s[1..], t, i) {
          AtShift(s, t, i + 1);
        }
        if i :| IsAt(s, t, i) {
          assert i != 0;
          AtShift(s, t, i);
        }
      }
    }
  }

  /** A chunk without a border of a block: exactly when it is sent, with what, and as which kind. */
  lemma SentWhen(s: State, t: string, done: bool)
    requires !s.done && !Odd(t)
    ensures var r, text := Handle(s, t, done), s.builder + t;
            var kind := if Has(t, "<think>") then "think" else s.msgType;
            var outside := !s.codeBlock && s.inlineCode == OddTicks(t);
            var sent := outside && (done || Has(t, "</think>") || (t != "" && t[|t| - 1] == '\n')
                                    || Runes.Utf8Length(text) > 2990);
            && r.emitted == (if sent then s.emitted + [Record(done, text, kind)] else s.emitted)
            && r.builder == (if sent then "" else text)
            && r.msgType == (if Has(t, "</think>") then "" else kind)
  {
    hide Contains, Has, Count, Ticks, WithoutFences, Runes.Utf8Length;
    ContainsIffHas(t, "<think>");
    ContainsIffHas(t, "</think>");
  }

  /** Every record that a chunk sends is of the kind the chunk makes it. */
  predicate OfKind(before: seq<Record>, after: seq<Record>, kind: string) {
    before <= after && forall i :: |before| <= i < |after| ==> after[i].kind == kind
  }

  lemma KindsOf(s: State, t: string, done: bool)
    ensures var r := Handle(s, t, done);
            var kind := if Has(t, "<think>") then "think" else s.msgType;
            && OfKind(s.emitted, r.emitted, kind)
            && r.msgType == (if Has(t, "</think>") then "" else kind)
  {
    hide Contains, Has, Count, Ticks, WithoutFences, LastFence, Trim, Breaks, Emit, OfKind;
    ContainsIffHas(t, "<think>");
    ContainsIffHas(t, "</think>");
    var s1 := Thoughts(s, t);
    var (r, text) := BeforeFlush(s, t, done);
    assert Handle(s, t, done) == Flush(r, text, Contains(t, "</think>"), done);
    SameKind(s.emitted, s1.msgType);
    assert OfKind(s.emitted, r.emitted, s1.msgType) && r.msgType == s1.msgType by {
      if Odd(t) && s.codeBlock {
        OddHasFence(t);
        var b := LastFence(t);
        EmitKind(s1.(builder := s1.builder + t[..b] + FENCE), done && Trim(t[b + 3..]) == "");
      } else if Odd(t) {
        EmitKind(s1, false);
      }
    }
    EmitKind(r, done);
    KindsJoin(s.emitted, r.emitted, Emit(r, done).emitted, s1.msgType);
  }

  lemma SameKind(records: seq<Record>, kind: string)
    ensures OfKind(records, records, kind)
  {
  }

  lemma EmitKind(s: State, done: bool)
    ensures OfKind(s.emitted, Emit(s, done).emitted, s.msgType) && Emit(s, done).msgType == s.msgType
  {
  }

  lemma KindsJoin(a: seq<Record>, b: seq<Record>, c: seq<Record>, kind: string)
    requires OfKind(a, b, kind) && OfKind(b, c, kind)
    ensures OfKind(a, c, kind)
  {
  }

  /** A thought has begun and not ended. */
  ghost predicate Thinking(chunks: seq<string>) {
    chunks != [] &&
    var t := chunks[|chunks| - 1];
    !Has(t, "</think>") && (Has(t, "<think>") || Thinking(chunks[..|chunks| - 1]))
  }

  /** Over every stream: a record is a thought exactly if one was under way or began with its chunk. */
  lemma {:induction false} ThoughtsAreMarked(chunks: seq<string>)
    ensures After(chunks).msgType == if Thinking(chunks) then "think" else ""
    ensures chunks != [] ==>
              var front, t := chunks[..|chunks| - 1], chunks[|chunks| - 1];
              OfKind(After(front).emitted, After(chunks).emitted,
                     if Has(t, "<think>") || Thinking(front) then "think" else "")
    decreases |chunks|
  {
    hide Handle, Has, OfKind;
    if chunks != [] {
      ThoughtsAreMarked(chunks[..|chunks| - 1]);
      KindsOf(After(chunks[..|chunks| - 1]), chunks[|chunks| - 1], false);
    }
  }

  lemma HandleBounds(s: State, t: string, done: bool)
    requires !s.done && DoneIsLast(s)
    ensures var r := Handle(s, t, done);
            !r.codeBlock && !r.inlineCode ==> Runes.Utf8Length(r.builder) <= 2990
  {
    hide Total, Taken, Visible, OddTicks, ClosesClean, Off, DoneIsLast, AllEven, Sends, Fits,
         Buffer, CloseBlock, Thoughts, Trim, LastFence, Contains;
    BeforeFlushFacts(s, t, done);
    var (r, text) := BeforeFlush(s, t, done);
    assert Handle(s, t, done) == Flush(r, text, Contains(t, "</think>"), done);
  }

  /** Over every stream: outside of code the buffer never holds more than the limit. */
  lemma BufferIsBounded(chunks: seq<string>)
    ensures var s := After(chunks);
            !s.codeBlock && !s.inlineCode ==> Runes.Utf8Length(s.builder) <= 2990
  {
    hide Handle;
    if chunks != [] {
      NotDoneYet(chunks[..|chunks| - 1]);
      HandleBounds(After(chunks[..|chunks| - 1]), chunks[|chunks| - 1], false);
    }
  }

  // ------------------------------------------------------------------
  // Two streams the handler does not treat as one would expect
  // ------------------------------------------------------------------

  /**
   That no run of back quotes goes on from one chunk into the next is not enough: trimming can
   bring two runs together into a fence, and a record then cuts a block.
   */
  lemma TrimmingMakesAFence()
    ensures var chunks := ["```\n", "```x` ", "``", "y`\n"];
            && (forall i :: 0 <= i < |chunks| ==> Joint(Text(chunks[..i]), chunks[i]))
            && !AllEven(After(chunks).emitted)
  {
    hide Handle, After, Text, Count;
    var a, b, c, d := "```\n", "```x` ", "``", "y`\n";
    var chunks := [a, b, c, d];
    Prefixes(a, b, c, d);
    assert Joint("", a) && Joint(a, b) && Joint(a + b, c) && Joint(a + b + c, d);
    OpensBlock();
    ClosesBlock();
    JoinsTicks();
    EmitsFence();
    assert Odd(After(chunks).emitted[2].content) by {
      OneFence();
    }
  }

  lemma OneFence()
    ensures Odd("x```y`\n")
  {
    var t := "x```y`\n";
    assert t[1..] == "```y`\n" && "```y`\n"[3..] == "y`\n" && Count("y`\n") == 0 by {
      assert "y`\n"[1..] == "`\n" && Count("`\n") == 0;
    }
    assert Count("```y`\n") == 1;
  }

  lemma Prefixes(a: string, b: string, c: string, d: string)
    ensures var chunks := [a, b, c, d];
            && chunks[..0] == [] && chunks[..1] == [a] && chunks[..2] == [a, b] && chunks[..3] == [a, b, c]
            && Text([]) == "" && Text([a]) == a && Text([a, b]) == a + b && Text([a, b, c]) == a + b + c
            && After([a]) == Handle(START, a, false)
            && After([a, b]) == Handle(After([a]), b, false)
            && After([a, b, c]) == Handle(After([a, b]), c, false)
            && After(chunks) == Handle(After([a, b, c]), d, false)
  {
    hide Handle;
    assert [a][..0] == [] && [a, b][..1] == [a] && [a, b, c][..2] == [a, b] && [a, b, c, d][..3] == [a, b, c];
    assert Text([]) == "" && Text([a]) == a && Text([a, b]) == a + b;
  }

  const OPENED := State(true, false, "```\n", "", false, [Record(false, "", "")])
  const CLOSED := State(false, true, "x`", "", false, [Record(false, "", ""), Record(false, "```\n```", "")])
  const JOINED := CLOSED.(builder := "x```")

  lemma OpensBlock()
    ensures Handle(START, "```\n", false) == OPENED
  {
    var t := "```\n";
    assert t[3..] == "\n" && Count(t) == 1 && WithoutFences(t) == "\n" && Ticks("\n") == 0;
    assert !Contains(t, "<think>") && !Contains(t, "</think>");
  }

  lemma ClosingChunk()
    ensures Count("```x` ") == 1 && LastFence("```x` ") == 0 && "```x` "[3..] == "x` " && Trim("x` ") == "x`"
  {
    var t := "```x` ";
    assert t[3..] == "x` " && Count("x` ") == 0;
    assert t[..3] == "```" && t[..4] == "```x" && t[..5] == "```x`";
    assert TrimLeft("x` ") == "x` " && "x` "[..2] == "x`" && TrimRight("x`") == "x`";
  }

  lemma ClosingTicks()
    ensures WithoutFences("x`") == "x`" && Ticks("x`") == 1
    ensures !Contains("```x` ", "<think>") && !Contains("```x` ", "</think>")
  {
    assert "x`"[1..] == "`" && Ticks("`") == 1;
  }

  lemma ClosesBlock()
    ensures Handle(OPENED, "```x` ", false) == CLOSED
  {
    hide Count, LastFence, Trim, WithoutFences, Ticks, Contains;
    var t := "```x` ";
    ClosingChunk();
    ClosingTicks();
    assert "```\n" + t[..0] + FENCE == "```\n```";
    assert OPENED.emitted + [Record(false, "```\n```", "")] == CLOSED.emitted;
    assert CloseBlock(OPENED, t, false) == (OPENED.(builder := "", emitted := CLOSED.emitted), "x`");
  }

  lemma JoinsTicks()
    ensures Handle(CLOSED, "``", false) == JOINED
  {
    assert Count("``") == 0 && WithoutFences("``") == "``" && "``"[1..] == "`" && Ticks("``") == 2;
    assert !Contains("``", "<think>") && !Contains("``", "</think>");
  }

  lemma EmitsFence()
    ensures Handle(JOINED, "y`\n", false)
            == State(false, false, "", "", false, JOINED.emitted + [Record(false, "x```y`\n", "")])
  {
    var t := "y`\n";
    assert t[1..] == "`\n" && Count("`\n") == 0 && Count(t) == 0;
    assert WithoutFences("`\n") == "`\n" && WithoutFences(t) == t;
    assert "`\n"[1..] == "\n" && Ticks("\n") == 0 && Ticks("`\n") == 1 && Ticks(t) == 1;
    assert !Contains(t, "<think>") && !Contains(t, "</think>");
    assert "x```" + t == "x```y`\n";
  }

  /**
   A single back quote inside a code block is enough to keep the stream from ending: the block
   is closed and no code is open, but no done record is sent and the last text is not emitted.
   */
  lemma TickInBlockBlocksTheEnd()
    ensures var chunks, last := ["```\n", "a`b\n", "```\n"], "bye\n";
            var r := AtEnd(chunks, last);
            && AllApart(chunks) && Apart(Text(chunks), last)
            && !InBlock(chunks + [last]) && !r.codeBlock
            && !r.done && r.builder == "bye\n"
  {
    hide Handle, After, Text, Count, InBlock, Strip;
    var a, b, c, d := "```\n", "a`b\n", "```\n", "bye\n";
    Prefixes(a, b, c, d);
    OpensBlock();
    KeepsTick();
    ClosesTick();
    SaysBye();
    TextsApart();
    FlagAt([a, b, c], d);
    var chunks := [a, b, c];
    assert After(chunks) == STUCK;
    assert chunks[..0] == [] && chunks[..1] == [a] && chunks[..2] == [a, b];
    assert AtEnd(chunks, d) == STUCK.(builder := "bye\n");
  }

  lemma FlagAt(chunks: seq<string>, last: string)
    ensures AtEnd(chunks, last).codeBlock == InBlock(chunks + [last])
  {
    hide Handle, Odd, OddTicks, Visible, Whole;
    FlagsAre(chunks);
    NotDoneYet(chunks);
    HandleFacts(After(chunks), last, true);
    assert (chunks + [last])[..|chunks|] == chunks;
  }

  lemma TextsApart()
    ensures Apart("", "```\n") && Apart("```\n", "a`b\n")
    ensures Apart("```\n" + "a`b\n", "```\n") && Apart("```\n" + "a`b\n" + "```\n", "bye\n")
  {
    var t := "```\n" + "a`b\n";
    assert t[..|t| - 1] == "```\n" + "a`b" && t == ("```\n" + "a`b") + "\n";
    StripSum("```\n" + "a`b", "\n");
    StripLast("```\n" + "a`b");
  }

  const TICKED := OPENED.(inlineCode := true, builder := "```\na`b\n")
  const STUCK := State(false, true, "", "", false, [Record(false, "", ""), Record(false, "```\na`b\n```", "")])

  lemma KeepsTick()
    ensures Handle(OPENED, "a`b\n", false) == TICKED
  {
    var t := "a`b\n";
    assert t[1..] == "`b\n" && "`b\n"[1..] == "b\n" && Count("b\n") == 0 && Count("`b\n") == 0 && Count(t) == 0;
    assert WithoutFences("b\n") == "b\n" && WithoutFences("`b\n") == "`b\n" && WithoutFences(t) == t;
    assert "b\n"[1..] == "\n" && Ticks("\n") == 0 && Ticks("b\n") == 0 && Ticks("`b\n") == 1 && Ticks(t) == 1;
    assert !Contains(t, "<think>") && !Contains(t, "</think>");
    assert "```\n" + t == "```\na`b\n";
  }

  lemma ClosesTick()
    ensures Handle(TICKED, "```\n", false) == STUCK
  {
    var t := "```\n";
    assert t[3..] == "\n" && Count("\n") == 0 && Count(t) == 1;
    assert t[..3] == "```" && LastFence(t) == 0;
    assert TrimLeft("\n") == "" && Trim("\n") == "";
    assert WithoutFences("") == "" && Ticks("") == 0;
    assert !Contains(t, "<think>") && !Contains(t, "</think>");
    assert TICKED.builder + t[..0] + FENCE == "```\na`b\n```";
    assert TICKED.emitted + [Record(false, "```\na`b\n```", "")] == STUCK.emitted;
    assert CloseBlock(TICKED, t, false) == (TICKED.(builder := "", emitted := STUCK.emitted), "");
  }

  lemma SaysBye()
    ensures Handle(STUCK, "bye\n", true) == STUCK.(builder := "bye\n")
  {
    var t := "bye\n";
    assert t[1..] == "ye\n" && "ye\n"[1..] == "e\n" && Count("e\n") == 0 && Count("ye\n") == 0 && Count(t) == 0;
    assert WithoutFences("e\n") == "e\n" && WithoutFences("ye\n") == "ye\n" && WithoutFences(t) == t;
    assert "e\n"[1..] == "\n" && Ticks("\n") == 0 && Ticks("e\n") == 0 && Ticks("ye\n") == 0 && Ticks(t) == 0;
    assert !Contains(t, "<think>") && !Contains(t, "</think>");
    assert "" + t == t;
  }

  /** Two fences made at seams even out: two chunks do not fit, and the one record is whole. */
  lemma MisfitsCancel()
    ensures var chunks, last := ["x`", "``y", "z``"], "`w``\n";
            var r := AtEnd(chunks, last);
            && !AllFit(chunks) && !Seam(After(chunks), last)
            && AllEven(r.emitted) && r.done
            && r.emitted == [Record(true, "x```yz```w``\n", "")]
  {
    hide Handle, After, Count;
    var a, b, c, d := "x`", "``y", "z``", "`w``\n";
    var chunks := [a, b, c];
    Prefixes(a, b, c, d);
    FirstTick();
    SecondTick();
    ThirdTick();
    LastTick();
    assert chunks[..1] == [a];
    assert !Seam(After(chunks[..1]), chunks[1]) && !Seam(After(chunks), d) by {
      TickSeams();
    }
    TwoFences();
  }

  const TICK := State(false, true, "x`", "", false, [])

  lemma FirstTick()
    ensures Handle(START, "x`", false) == TICK
  {
    var t := "x`";
    assert t[1..] == "`" && Ticks("`") == 1 && Ticks(t) == 1;
    assert !Contains(t, "<think>") && !Contains(t, "</think>");
    assert "" + t == t;
  }

  lemma SecondTick()
    ensures Handle(TICK, "``y", false) == TICK.(builder := "x```y")
  {
    var t := "``y";
    assert t[1..] == "`y" && Count("`y") == 0 && Count(t) == 0;
    assert WithoutFences("`y") == "`y" && WithoutFences(t) == t;
    assert "`y"[1..] == "y" && "y"[1..] == "" && Ticks("y") == 0 && Ticks("`y") == 1 && Ticks(t) == 2;
    assert !Contains(t, "<think>") && !Contains(t, "</think>");
    assert "x`" + t == "x```y";
  }

  lemma ThirdTick()
    ensures Handle(TICK.(builder := "x```y"), "z``", false) == TICK.(builder := "x```yz``")
  {
    var t := "z``";
    assert t[1..] == "``" && Count("``") == 0 && Count(t) == 0;
    assert WithoutFences("``") == "``" && WithoutFences(t) == t;
    assert "``"[1..] == "`" && Ticks("`") == 1 && Ticks("``") == 2 && Ticks(t) == 2;
    assert !Contains(t, "<think>") && !Contains(t, "</think>");
    assert "x```y" + t == "x```yz``";
  }

  lemma LastTick()
    ensures Handle(TICK.(builder := "x```yz``"), "`w``\n", true)
            == State(false, false, "", "", true, [Record(true, "x```yz```w``\n", "")])
  {
    var t := "`w``\n";
    assert t[1..] == "w``\n" && "w``\n"[1..] == "``\n" && "``\n"[1..] == "`\n" && "`\n"[1..] == "\n";
    assert Count("`\n") == 0 && Count("``\n") == 0 && Count("w``\n") == 0 && Count(t) == 0;
    assert WithoutFences("`\n") == "`\n" && WithoutFences("``\n") == "``\n";
    assert WithoutFences("w``\n") == "w``\n" && WithoutFences(t) == t;
    assert Ticks("\n") == 0 && Ticks("`\n") == 1 && Ticks("``\n") == 2 && Ticks("w``\n") == 2 && Ticks(t) == 3;
    assert !Contains(t, "<think>") && !Contains(t, "</think>");
    assert "x```yz``" + t == "x```yz```w``\n";
  }

  lemma TickSeams()
    ensures !Fits("x`", "``y") && !Odd("``y") && !Fits("x```yz``", "`w``\n") && !Odd("`w``\n")
  {
    hide Trail, Lead;
    TrailIs("x`", 1);
    LeadIs("``y", 2);
    TrailIs("x```yz``", 2);
    LeadIs("`w``\n", 1);
    assert "``y"[1..] == "`y" && Count("`y") == 0;
    assert "`w``\n"[1..] == "w``\n" && "w``\n"[1..] == "``\n" && "``\n"[1..] == "`\n";
    assert Count("`\n") == 0 && Count("``\n") == 0 && Count("w``\n") == 0;
  }

  lemma {:induction false} TrailIs(s: string, n: nat)
    requires n <= |s| && TicksFrom(s, |s| - n, |s|) && (n < |s| ==> s[|s| - n - 1] != '`')
    ensures Trail(s) == n
    decreases n
  {
    if n > 0 {
      TrailIs(s[..|s| - 1], n - 1);
    }
  }

  lemma TwoFences()
    ensures !Odd("x```yz```w``\n")
  {
    hide Count;
    var a, b, c := "x```y", "z```w", "``\n";
    FenceBetween('x', 'y');
    FenceBetween('z', 'w');
    NoFence();
    CountSum(a, b);
    CountSum(a + b, c);
    assert "x" + FENCE + "y" == a && "z" + FENCE + "w" == b;
    assert a + b + c == "x```yz```w``\n";
  }

  lemma FenceBetween(a: char, b: char)
    requires a != '`' && b != '`'
    ensures Count([a] + FENCE + [b]) == 1
  {
    var t := [a] + FENCE + [b];
    assert t[1..] == FENCE + [b] && (FENCE + [b])[3..] == [b];
    assert Count([b]) == 0 && Count(FENCE + [b]) == 1;
  }

  lemma NoFence()
    ensures Count("``\n") == 0
  {
    assert "``\n"[1..] == "`\n" && Count("`\n") == 0;
  }
}
