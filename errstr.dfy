/**
 * The error-string buffer of src/errstr.c as heap state.
 *
 * A Buffer is the C `struct errstr_buffer`: a capacity fixed at allocation,
 * a length the operations update in place, and a storage region of
 * `capacity + 1` characters whose last one is the terminating NUL.  The
 * content is right-aligned: it is the `length` characters just before index
 * `capacity`.  An ErrorContext is the thread-specific slot that holds the
 * calling thread's buffer, or null before one has been allocated.
 */
module ErrStr {
  import opened Wrappers
  import opened ErrStrSpec

  class Buffer {
    const capacity: nat
    var length: nat
    const storage: array<char>

    ghost predicate Valid()
      reads this, storage
    {
      storage.Length == capacity + 1 &&
      length <= capacity <= MaxCapacity() &&
      storage[capacity] == '\0'
    }

    /** Index of the first of `len` right-aligned characters in a region of `cap` (errstrbuf_loc_with_capacity_and_length). */
    static function LocWithCapacityAndLength(cap: nat, len: nat): (i: nat)
      requires len <= cap
      ensures i + len == cap
    {
      cap - len
    }

    /** errstrbuf_loc_with_length */
    function LocWithLength(len: nat): (i: nat)
      requires len <= capacity
      ensures i + len == capacity
    {
      LocWithCapacityAndLength(capacity, len)
    }

    /** Index where the content starts (errstrbuf_loc). */
    function Loc(): (i: nat)
      reads this
      requires length <= capacity
      ensures i + length == capacity
    {
      LocWithLength(length)
    }

    /** Free space in front of the content (errstrbuf_space). */
    function Space(): (r: nat)
      reads this
      requires length <= capacity
      ensures r == Loc()
    {
      capacity - length
    }

    /** The right-aligned content: the `length` characters before the NUL. */
    function Content(): (s: string)
      reads this, storage
      requires Valid()
      ensures |s| == length
      ensures forall i :: 0 <= i < length ==> s[i] == storage[Loc() + i]
    {
      storage[Loc()..capacity]
    }

    /** The buffer as the value-level specification sees it. */
    function Snap(): (s: Snapshot)
      reads this, storage
      requires Valid()
      ensures s.Valid() && s.capacity == capacity && s.content == Content()
    {
      Snapshot(capacity, Content())
    }

    constructor Allocated(capacity: nat)
      requires capacity <= MaxCapacity()
      ensures Valid() && fresh(storage)
      ensures this.capacity == capacity && length == 0 && Content() == []
    {
      this.capacity := capacity;
      length := 0;
      var region := new char[capacity + 1];
      region[capacity] := '\0';
      storage := region;
    }

    /**
     * errstrbuf_allocate: refuses capacities above the maximum; otherwise a
     * fresh empty buffer with a NUL at index `capacity`, unless allocating or
     * registering it fails (`allocOk` false).
     */
    static method Allocate(capacity: nat, allocOk: bool) returns (b: Buffer?)
      ensures b != null <==> capacity <= MaxCapacity() && allocOk
      ensures b != null ==> fresh(b) && fresh(b.storage) && b.Valid()
      ensures b != null ==> b.capacity == capacity && b.length == 0 && b.storage[capacity] == '\0'
    {
      if capacity > MaxCapacity() {
        return null;
      }
      if !allocOk {
        return null;
      }
      b := new Buffer.Allocated(capacity);
    }

    /**
     * errstrbuf_resize as written: a buffer whose capacity exceeds the request
     * is returned untouched, and so is the old one when allocation fails;
     * otherwise the old content is copied to the right edge of a fresh buffer
     * of the requested capacity, whose length stays 0.
     */
    method ResizeAsWritten(capacity: nat, allocOk: bool) returns (r: Buffer)
      requires Valid()
      ensures r.Valid()
      ensures this.capacity > capacity || capacity > MaxCapacity() || !allocOk ==> r == this
      ensures r == this || (fresh(r) && fresh(r.storage))
      ensures r != this ==> r.capacity == capacity && r.length == 0
      ensures r != this ==> r.storage[capacity - length..capacity] == Content()
      ensures r.Snap() == ResizedAsWritten(Snap(), capacity, allocOk)
    {
      if this.capacity > capacity {
        return this;
      }
      var nbuf := Allocate(capacity, allocOk);
      if nbuf == null {
        return this;
      }
      forall i | 0 <= i < length {
        nbuf.storage[nbuf.LocWithLength(length) + i] := storage[Loc() + i];
      }
      return nbuf;
    }

    /**
     * errstrbuf_resize with the two corrections the prepend relies on: a
     * buffer that already has the requested capacity is kept, and the fresh
     * buffer takes over the old length, so the content survives the copy.
     */
    method Resize(capacity: nat, allocOk: bool) returns (r: Buffer)
      requires Valid()
      ensures r.Valid()
      ensures r == this || (fresh(r) && fresh(r.storage))
      ensures r.Snap() == Resized(Snap(), capacity, allocOk)
    {
      if this.capacity >= capacity {
        return this;
      }
      var nbuf := Allocate(capacity, allocOk);
      if nbuf == null {
        return this;
      }
      forall i | 0 <= i < length {
        nbuf.storage[nbuf.LocWithLength(length) + i] := storage[Loc() + i];
      }
      nbuf.length := length;
      assert nbuf.Content() == Content();
      return nbuf;
    }

    /** errstr_clear on an existing buffer: the length drops to 0, capacity and bytes stay. */
    method Clear()
      requires Valid()
      modifies this
      ensures Valid() && length == 0 && Content() == []
    {
      length := 0;
    }

    /**
     * The truncation step of verrstrf: moves the first (newest) `keep`
     * characters of the content to the right edge and drops the older rest.
     */
    method KeepNewest(keep: nat)
      requires Valid() && keep < length
      modifies this, storage
      ensures Valid() && length == keep
      ensures Content() == old(Content())[..keep]
      ensures storage[..LocWithLength(keep)] == old(storage[..])[..LocWithLength(keep)]
    {
      ghost var kept := Content()[..keep];
      forall i | 0 <= i < keep {
        storage[LocWithLength(keep) + i] := storage[Loc() + i];
      }
      length := keep;
      assert Content() == kept;
    }

    /**
     * The final copy of verrstrf: writes `text` just in front of the
     * content and adds its length; the bytes further left stay as they were.
     */
    method PutInFront(text: string)
      requires Valid() && |text| <= Space()
      modifies this, storage
      ensures Valid() && length == old(length) + |text|
      ensures Content() == text + old(Content())
      ensures storage[..Loc()] == old(storage[..])[..Loc()]
    {
      ghost var tail := Content();
      forall i | 0 <= i < |text| {
        storage[Loc() - |text| + i] := text[i];
      }
      length := length + |text|;
      assert Content() == text + tail;
    }

    /**
     * The buffer logic of verrstrf, from the rendered text on: puts `text`
     * in front of the content, growing or truncating on overflow as
     * `ErrStrSpec.Prepend` prescribes, and returns the buffer now in use
     * (this one, or a fresh one after a resize) with its new length.
     */
    method PrependRendered(text: string, allocOk: bool) returns (r: Buffer, n: nat)
      requires Valid() && |text| < MaxBufSize
      modifies this, storage
      ensures r.Valid() && n == r.length
      ensures r == this || (fresh(r) && fresh(r.storage))
      ensures r.Snap() == Prepend(old(Snap()), text, allocOk)
      ensures |text| <= old(Space()) ==> r == this && storage[..Loc()] == old(storage[..])[..Loc()]
    {
      ghost var s0 := Snap();
      if |text| <= Space() {
        PutInFront(text);
        assert Snap() == Prepend(s0, text, allocOk);
        return this, length;
      }
      var wanted := Min(|text| + length, MaxCapacity());
      var b := Resize(wanted, allocOk);
      ghost var s1 := b.Snap();
      assert s1 == Resized(s0, wanted, allocOk);
      // The code as written does not clamp the text, and its copy below then
      // starts before the storage.
      var t := text[..Min(|text|, b.capacity)];
      var appendLength := b.capacity - |t|;
      if appendLength < b.length {
        b.KeepNewest(appendLength);
      }
      ghost var kept := s1.content[..Min(appendLength, |s1.content|)];
      assert b.Content() == kept;
      assert Prepend(s0, text, allocOk) == Snapshot(s1.capacity, t + kept);
      b.PutInFront(t);
      r, n := b, b.length;
    }
  }

  /** The calling thread's slot for its buffer (the pthread key's thread-specific value). */
  class ErrorContext {
    var buf: Buffer?

    ghost predicate Valid()
      reads this, buf, if buf != null then {buf.storage} else {}
    {
      buf != null ==> buf.Valid()
    }

    /** The thread's error string; a thread without a buffer reads as empty. */
    function Text(): (s: string)
      reads this, buf, if buf != null then {buf.storage} else {}
      requires Valid()
      ensures buf == null ==> s == []
      ensures buf != null ==> s == buf.Content()
    {
      if buf == null then [] else buf.Content()
    }

    /** The buffer a prepend works on: the thread's buffer, or the one it would be given on first use. */
    ghost function Current(): (s: Snapshot)
      reads this, buf, if buf != null then {buf.storage} else {}
      requires Valid()
      ensures s.Valid() && s.content == Text()
      ensures buf == null ==> s == Snapshot(DefaultCapacity(), [])
      ensures buf != null ==> s == buf.Snap()
    {
      if buf == null then Snapshot(DefaultCapacity(), []) else buf.Snap()
    }

    /** A thread that has not used its error string yet. */
    constructor ()
      ensures Valid() && buf == null
    {
      buf := null;
    }

    /**
     * errstrbuf_get: the thread's buffer, allocating one of the default
     * capacity on first use; null when that allocation fails.
     */
    method Get(allocOk: bool) returns (b: Buffer?)
      requires Valid()
      modifies this
      ensures Valid() && b == buf
      ensures old(buf) != null ==> b == old(buf)
      ensures old(buf) == null && allocOk ==> b != null && fresh(b) && fresh(b.storage)
      ensures old(buf) == null && allocOk ==> b.capacity == DefaultCapacity() && b.length == 0
      ensures old(buf) == null && !allocOk ==> b == null
      ensures Text() == old(Text()) && Current() == old(Current())
      ensures buf != null <==> old(buf) != null || allocOk
      ensures buf == old(buf) || (buf != null && fresh(buf) && fresh(buf.storage))
    {
      if buf != null {
        return buf;
      }
      b := Buffer.Allocate(DefaultCapacity(), allocOk);
      buf := b;
    }

    /** errstr_length: the length of the thread's error string, 0 without a buffer. */
    method Length(allocOk: bool) returns (n: nat)
      requires Valid()
      modifies this
      ensures Valid() && Text() == old(Text()) && Current() == old(Current())
      ensures n == |old(Text())|
      ensures buf != null <==> old(buf) != null || allocOk
      ensures buf == old(buf) || (buf != null && fresh(buf) && fresh(buf.storage))
    {
      var b := Get(allocOk);
      if b == null {
        return 0;
      }
      return b.length;
    }

    /**
     * errstr_location: the thread's error string, `None` where C returns
     * NULL.  The content is followed by the NUL at index `capacity`.
     */
    method Location(allocOk: bool) returns (r: Option<string>)
      requires Valid()
      modifies this
      ensures Valid() && Text() == old(Text()) && Current() == old(Current())
      ensures r.None? <==> buf == null
      ensures r.Some? ==> r.value == old(Text()) && buf.storage[buf.capacity] == '\0'
      ensures buf != null <==> old(buf) != null || allocOk
      ensures buf == old(buf) || (buf != null && fresh(buf) && fresh(buf.storage))
    {
      var b := Get(allocOk);
      if b == null {
        return None;
      }
      return Some(b.Content());
    }

    /** errstr_clear: empties the thread's error string, keeping its buffer and capacity. */
    method Clear(allocOk: bool)
      requires Valid()
      modifies this, buf
      ensures Valid() && Text() == [] && Current() == Snapshot(old(Current()).capacity, [])
      ensures old(buf) != null ==> buf == old(buf) && buf.storage[..] == old(buf.storage[..])
      ensures buf != null <==> old(buf) != null || allocOk
      ensures buf == old(buf) || (buf != null && fresh(buf) && fresh(buf.storage))
    {
      var b := Get(allocOk);
      if b == null {
        return;
      }
      b.Clear();
    }

    /** errstr_present: whether the thread's error string is non-empty. */
    method Present(allocOk: bool) returns (p: bool)
      requires Valid()
      modifies this
      ensures Valid() && Text() == old(Text()) && Current() == old(Current())
      ensures p <==> old(Text()) != []
      ensures buf != null <==> old(buf) != null || allocOk
      ensures buf == old(buf) || (buf != null && fresh(buf) && fresh(buf.storage))
    {
      var n := Length(allocOk);
      p := n > 0;
    }

    /**
     * verrstrf: renders the formatter outcome, prepends it to the thread's
     * buffer and returns the new length; 0 with nothing changed when the
     * thread has no buffer and none can be allocated.  `allocOk` is the
     * outcome of the first-use allocation, `growOk` that of the allocation
     * attempted on overflow.
     */
    method Prepend(formatted: Option<string>, allocOk: bool, growOk: bool) returns (n: nat)
      requires Valid()
      modifies this, buf, if buf != null then {buf.storage} else {}
      ensures Valid()
      ensures buf == null ==> n == 0
      ensures buf != null ==> Current() == ErrStrSpec.Prepend(old(Current()), Render(formatted), growOk)
      ensures buf != null ==> n == |Text()|
      ensures old(buf) != null && |Render(formatted)| <= old(Current()).Space() ==> buf == old(buf)
      ensures buf != null <==> old(buf) != null || allocOk
      ensures buf == old(buf) || (buf != null && fresh(buf) && fresh(buf.storage))
    {
      var b := Get(allocOk);
      if b == null {
        return 0;
      }
      var text := Render(formatted);
      var nb;
      nb, n := b.PrependRendered(text, growOk);
      buf := nb;
    }
  }

  /**
   * test/errstrftest.cpp "clear": on a fresh thread a prepend reports a
   * non-zero length and content is present; after clearing, the length is 0
   * and nothing is present.
   */
  method TestClear() returns (n: nat, present: bool, cleared: nat, presentAfter: bool)
    ensures n != 0 && present
    ensures cleared == 0 && !presentAfter
  {
    var ctx := new ErrorContext();
    n := ctx.Prepend(Some("test"), true, true);
    present := ctx.Present(true);
    ctx.Clear(true);
    cleared := ctx.Length(true);
    presentAfter := ctx.Present(true);
  }

  /** test/errstrftest.cpp "basic": after a clear, prepending "test" reports 4 and reads "test". */
  method TestBasic() returns (n: nat, s: Option<string>, present: bool)
    ensures n == |"test"| && s == Some("test") && present
  {
    var ctx := new ErrorContext();
    ctx.Clear(true);
    n := ctx.Prepend(Some("test"), true, true);
    assert "test" + [] == "test";
    s := ctx.Location(true);
    present := ctx.Present(true);
  }

  /**
   * test/errstrftest.cpp "compound": after a clear, "test" then "test2: "
   * report 4 and 11, and the string reads "test2: test".
   */
  method TestCompound() returns (n1: nat, n2: nat, s: Option<string>, present: bool)
    ensures n1 == |"test"| && n2 == |"test2: "| + |"test"|
    ensures s == Some("test2: test") && present
  {
    var ctx := new ErrorContext();
    ctx.Clear(true);
    n1 := ctx.Prepend(Some("test"), true, true);
    assert "test" + [] == "test";
    n2 := ctx.Prepend(Some("test2: "), true, true);
    assert "test2: " + "test" == "test2: test";
    s := ctx.Location(true);
    present := ctx.Present(true);
  }
}
