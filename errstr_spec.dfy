/**
 * Value-level specification of the per-thread error-string buffer.
 *
 * A buffer is observed as a Snapshot: its capacity and the text it currently
 * holds (the right-aligned content).  `Prepend` is the behaviour the buffer
 * engine is meant to have; `PrependAsWritten` transcribes the C arithmetic of
 * `verrstrf` literally, including `size_t` wrap-around, and the lemmas at the
 * end of the module show where the two part ways.
 */
module ErrStrSpec {
  import opened Wrappers

  /** ERRSTR_DEFAULT_BUF_SIZE */
  const DefaultBufSize: nat := 256
  /** ERRSTR_MAX_BUF_SIZE, which defaults to BUFSIZ; BUFSIZ is taken to be 8192 (glibc). */
  const MaxBufSize: nat := 8192
  /** `size_t` is taken to be 64 bits wide. */
  const SizeModulus: nat := 0x1_0000_0000_0000_0000
  /** Text prepended in place of a message that could not be rendered. */
  const FormatErrorText: string := "(format error) "

  /**
   * Largest capacity a buffer may be allocated with (errstrbuf_max_capacity):
   * one character of ERRSTR_MAX_BUF_SIZE is the terminating NUL, and the
   * default capacity never exceeds it.
   */
  function MaxCapacity(): (r: nat)
    ensures r + 1 == MaxBufSize && DefaultBufSize - 1 <= r
  {
    MaxBufSize - 1
  }

  /** Capacity of the buffer a thread receives on first use, leaving room for the NUL. */
  function DefaultCapacity(): (r: nat)
    ensures r + 1 == DefaultBufSize && r <= MaxBufSize - 1
  {
    DefaultBufSize - 1
  }

  function Min(a: int, b: int): int
  {
    if a <= b then a else b
  }

  /**
   * The text that is prepended for a formatter outcome.  `None` stands for a
   * negative return of vsnprintf (an encoding error); `Some(s)` is the full
   * text vsnprintf would produce, of which only a prefix reaches the scratch
   * buffer when it is too long.
   */
  function Render(formatted: Option<string>): (r: string)
    ensures |r| < MaxBufSize
    ensures r == FormatErrorText || formatted == Some(r)
    ensures formatted.Some? && |formatted.value| < MaxBufSize ==> r == formatted.value
    ensures formatted.None? || |formatted.value| >= MaxBufSize ==> r == FormatErrorText
  {
    if formatted.None? || |formatted.value| >= MaxBufSize then FormatErrorText
    else formatted.value
  }

  /** What a reader of the buffer can observe: its capacity and its content. */
  datatype Snapshot = Snapshot(capacity: nat, content: string)
  {
    /** The length never exceeds the capacity, which never exceeds the maximum. */
    predicate Valid()
    {
      |content| <= capacity <= MaxCapacity()
    }

    /** Free space in front of the content (errstrbuf_space). */
    function Space(): (r: nat)
      requires Valid()
      ensures r + |content| == capacity
    {
      capacity - |content|
    }
  }

  /**
   * Outcome of errstrbuf_resize as the buffer engine intends it: a buffer whose
   * capacity already covers the request is kept; otherwise a buffer of the
   * requested capacity holding the same content, unless allocation fails.
   */
  function Resized(s: Snapshot, capacity: nat, allocOk: bool): (r: Snapshot)
    requires s.Valid()
    ensures r.Valid() && r.content == s.content
    ensures r.capacity == s.capacity || r.capacity == capacity > s.capacity
    ensures r.capacity == capacity <==> s.capacity == capacity || (s.capacity < capacity <= MaxCapacity() && allocOk)
  {
    if s.capacity >= capacity || capacity > MaxCapacity() || !allocOk then s
    else Snapshot(capacity, s.content)
  }

  /**
   * errstrbuf_resize as written: the test is strict, and the fresh buffer
   * keeps the length 0 it was allocated with, so the copied bytes are not
   * part of its content.
   */
  function ResizedAsWritten(s: Snapshot, capacity: nat, allocOk: bool): (r: Snapshot)
    requires s.Valid()
    ensures r.Valid()
    ensures r == s || (r.capacity == capacity >= s.capacity && r.content == [])
  {
    if s.capacity > capacity || capacity > MaxCapacity() || !allocOk then s
    else Snapshot(capacity, [])
  }

  /**
   * Prepending rendered text `text` to the buffer `s`; `allocOk` says whether
   * the allocation attempted on overflow succeeds.  When the text fits the
   * free space it is simply put in front.  Otherwise the buffer grows towards
   * `min(|text| + |content|, MaxCapacity())`, and what still does not fit is
   * dropped from the oldest end of the old content (and, when the text alone
   * is longer than the buffer, from the end of the text).
   */
  function Prepend(s: Snapshot, text: string, allocOk: bool): (r: Snapshot)
    requires s.Valid() && |text| < MaxBufSize
    ensures r.Valid() && r.capacity >= s.capacity
    ensures |text| <= s.Space() ==> r == Snapshot(s.capacity, text + s.content)
    ensures allocOk && |text| + |s.content| <= MaxCapacity() ==> r.content == text + s.content
    ensures r.capacity > s.capacity ==> allocOk && r.capacity == Min(|text| + |s.content|, MaxCapacity())
    ensures allocOk && |text| > s.Space() ==> r.capacity == Min(|text| + |s.content|, MaxCapacity())
    ensures |r.content| == Min(|text| + |s.content|, r.capacity)
    ensures var kept := Min(|text|, r.capacity);
            r.content == text[..kept] + s.content[..|r.content| - kept]
  {
    if |text| <= s.Space() then
      Snapshot(s.capacity, text + s.content)
    else
      var wanted := Min(|text| + |s.content|, MaxCapacity());
      var b := Resized(s, wanted, allocOk);
      var t := text[..Min(|text|, b.capacity)];
      var keep := Min(b.capacity - |t|, |b.content|);
      Snapshot(b.capacity, t + b.content[..keep])
  }

  /** Result of the C prepend: a new buffer state, or a write that starts `offset` bytes into the storage, which is negative. */
  datatype Outcome = Written(snapshot: Snapshot) | WritesBeforeStorage(offset: int)

  /**
   * verrstrf after rendering, transcribed literally: the strict resize test,
   * the resize that forgets the length, and `capacity - prepend_length`
   * computed in `size_t`.
   */
  function PrependAsWritten(s: Snapshot, text: string, allocOk: bool): (r: Outcome)
    requires s.Valid() && |text| < MaxBufSize
    ensures r.Written? ==> r.snapshot.Valid() && r.snapshot.capacity >= s.capacity
    ensures r.Written? ==> text <= r.snapshot.content
    ensures r.WritesBeforeStorage? ==> r.offset < 0 && |text| > s.capacity
  {
    if |text| <= s.Space() then
      Written(Snapshot(s.capacity, text + s.content))
    else
      var wanted := Min(|text| + |s.content|, MaxCapacity());
      var b := ResizedAsWritten(s, wanted, allocOk);
      var appendLength := (b.capacity - |text|) % SizeModulus;
      var content := if appendLength < |b.content| then b.content[..appendLength] else b.content;
      var offset := b.capacity - |content| - |text|;
      if offset < 0 then WritesBeforeStorage(offset)
      else Written(Snapshot(b.capacity, text + content))
  }

  /**
   * Applies the prepends `texts[0]`, `texts[1]`, ... in that order;
   * `grants[i]` is the allocation outcome of step i.  Overflow boundedness:
   * no series of prepends takes the buffer beyond the maximum capacity.
   */
  function PrependAll(s: Snapshot, texts: seq<string>, grants: seq<bool>): (r: Snapshot)
    requires s.Valid() && |grants| == |texts|
    requires forall i :: 0 <= i < |texts| ==> |texts[i]| < MaxBufSize
    ensures r.Valid() && r.capacity >= s.capacity
    decreases |texts|
  {
    if texts == [] then s
    else PrependAll(Prepend(s, texts[0], grants[0]), texts[1..], grants[1..])
  }

  /** The texts concatenated newest first: the last one prepended reads first. */
  function NewestFirst(texts: seq<string>): string
  {
    if texts == [] then [] else NewestFirst(texts[1..]) + texts[0]
  }

  function TotalLength(texts: seq<string>): nat
  {
    if texts == [] then 0 else |texts[0]| + TotalLength(texts[1..])
  }

  /**
   * Length accuracy: while every allocation succeeds and everything fits the
   * maximum capacity, the content is the concatenation of the prepended texts,
   * newest first, in front of the old content.
   */
  lemma {:induction false} PrependAllConcatenates(s: Snapshot, texts: seq<string>, grants: seq<bool>)
    requires s.Valid() && |grants| == |texts|
    requires forall i :: 0 <= i < |texts| ==> |texts[i]| < MaxBufSize
    requires forall i :: 0 <= i < |grants| ==> grants[i]
    requires |s.content| + TotalLength(texts) <= MaxCapacity()
    ensures PrependAll(s, texts, grants).content == NewestFirst(texts) + s.content
    ensures |PrependAll(s, texts, grants).content| == |s.content| + TotalLength(texts)
    decreases |texts|
  {
    if texts != [] {
      var s' := Prepend(s, texts[0], grants[0]);
      assert s'.content == texts[0] + s.content;
      PrependAllConcatenates(s', texts[1..], grants[1..]);
      calc {
        PrependAll(s, texts, grants).content;
        NewestFirst(texts[1..]) + (texts[0] + s.content);
        (NewestFirst(texts[1..]) + texts[0]) + s.content;
        NewestFirst(texts) + s.content;
      }
    }
  }

  /**
   * Keep-newest overflow policy: whatever the allocation outcomes, after a
   * series of prepends the content starts with the most recent text,
   * provided that text fits the initial capacity.
   */
  lemma {:induction false} NewestTextReadsFirst(s: Snapshot, texts: seq<string>, grants: seq<bool>)
    requires s.Valid() && |grants| == |texts|
    requires forall i :: 0 <= i < |texts| ==> |texts[i]| < MaxBufSize
    requires texts != [] && |texts[|texts| - 1]| <= s.capacity
    ensures texts[|texts| - 1] <= PrependAll(s, texts, grants).content
    decreases |texts|
  {
    var s' := Prepend(s, texts[0], grants[0]);
    if |texts| == 1 {
      assert PrependAll(s, texts, grants) == s';
    } else {
      assert texts[1..][|texts[1..]| - 1] == texts[|texts| - 1];
      NewestTextReadsFirst(s', texts[1..], grants[1..]);
    }
  }

  /** When the text fits the free space, the code as written does what is intended. */
  lemma AsWrittenAgreesWhenFits(s: Snapshot, text: string, allocOk: bool)
    requires s.Valid() && |text| < MaxBufSize && |text| <= s.Space()
    ensures PrependAsWritten(s, text, allocOk) == Written(Prepend(s, text, allocOk))
  {
  }

  /** When allocation fails and the text alone fits the buffer, the code as written does what is intended. */
  lemma AsWrittenAgreesWithoutGrowth(s: Snapshot, text: string)
    requires s.Valid() && |text| < MaxBufSize && |text| <= s.capacity
    ensures PrependAsWritten(s, text, false) == Written(Prepend(s, text, false))
  {
  }

  /**
   * Resize loses the length: whenever an overflowing prepend grows a
   * non-empty buffer, the code as written keeps only the new text, while
   * the intended result keeps the old content behind it.
   */
  lemma ResizeLosesContentAsWritten(s: Snapshot, text: string)
    requires s.Valid() && |text| < MaxBufSize
    requires |text| > s.Space() && |text| + |s.content| <= MaxCapacity() && s.content != []
    ensures PrependAsWritten(s, text, true) == Written(Snapshot(|text| + |s.content|, text))
    ensures Prepend(s, text, true) == Snapshot(|text| + |s.content|, text + s.content)
  {
  }

  /**
   * A full buffer at the maximum capacity is reallocated at the same size on
   * overflow, and as written that empties it; the intended result keeps the
   * buffer full, with the newest bytes.
   */
  lemma FullBufferEmptiedAsWritten(s: Snapshot, text: string)
    requires s.Valid() && 0 < |text| < MaxBufSize
    requires s.capacity == |s.content| == MaxCapacity()
    ensures PrependAsWritten(s, text, true) == Written(Snapshot(MaxCapacity(), text))
    ensures Prepend(s, text, true) == Snapshot(MaxCapacity(), text + s.content[..MaxCapacity() - |text|])
  {
  }

  /**
   * Unsigned underflow: when allocation fails and the text is longer than
   * the whole buffer, `capacity - prepend_length` wraps, truncation is
   * skipped and the copy starts before the storage.  The intended result
   * keeps the first `capacity` bytes of the text.
   */
  lemma UnderflowWritesBeforeStorage(s: Snapshot, text: string)
    requires s.Valid() && |text| < MaxBufSize && |text| > s.capacity
    ensures PrependAsWritten(s, text, false) == WritesBeforeStorage(s.capacity - |s.content| - |text|)
    ensures Prepend(s, text, false) == Snapshot(s.capacity, text[..s.capacity])
  {
  }
}
