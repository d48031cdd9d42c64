# errstr: the per-thread error-string buffer, in Dafny

`errstr` keeps, for every thread, one error string that callers build up by
prepending formatted messages, so that the outermost context reads first
(`"test2: "` prepended to `"test"` gives `"test2: test"`).  The string lives
in a bounded buffer whose content is right-aligned: it is the last `length`
characters before index `capacity`, and a NUL sits at index `capacity`.
When a message does not fit, the buffer tries to grow to
`min(needed, ERRSTR_MAX_BUF_SIZE - 1)`, and what still does not fit is meant
to be dropped from the oldest end.  As written, a successful grow drops all
of the old content instead (see "## Findings"); the keep-newest behaviour
described here is the corrected one that the heap model implements.  A
message that cannot be rendered is replaced by `"(format error) "`.

The project has three modules:

- `Wrappers` (wrappers.dfy): the `Option` type.
- `ErrStrSpec` (errstr_spec.dfy): the buffer as a value (`Snapshot`: capacity
  and content), the rendering rule, the intended prepend `Prepend`, a literal
  transcription of the C arithmetic `PrependAsWritten`, and lemmas relating
  them.
- `ErrStr` (errstr.dfy): the heap model. `Buffer` is `struct errstr_buffer`
  (`const capacity`, `var length`, `const storage: array<char>` of size
  `capacity + 1`); `ErrorContext` is the calling thread's slot holding a
  `Buffer?` (null before first use). Their methods are the functions of
  src/errstr.c.  The resize and prepend methods are proved against the
  `ErrStrSpec` functions (`Resized`, `ResizedAsWritten`, `Prepend`); the
  others (`Allocate`, `Buffer.Clear`, `Get`, `Length`, `Location`,
  `ErrorContext.Clear`, `Present`) state their results directly in terms of
  the buffer's fields and content.

Constants: `ERRSTR_DEFAULT_BUF_SIZE` defaults to 256 and
`ERRSTR_MAX_BUF_SIZE` defaults to `BUFSIZ`; both can be overridden at build
time.  The proofs fix them at 256 and 8192 (glibc's `BUFSIZ`), and take
`size_t` as 64 bits.  The
outcome of every allocation (malloc plus `pthread_setspecific`) is a boolean
parameter, and the formatter's outcome is an `Option<string>` parameter:
`None` for a negative `vsnprintf` return, `Some(s)` for the full text it
would produce.

Every entry point on a thread with no buffer, including the read-only ones
(length, location and present, as well as clear and prepend), goes through
`errstrbuf_get`, which allocates a default buffer; the model does the same,
and the read-only ones leave the observable buffer (`Current()`) unchanged.  The
strict test of `errstrbuf_resize` (keep the old buffer only when its
capacity exceeds the request) is followed by the as-written members
`ErrStrSpec.ResizedAsWritten`, `ErrStrSpec.PrependAsWritten` and
`ErrStr.Buffer.ResizeAsWritten`; the corrected `Resize`/`Resized`, which the
prepend path uses, keep the buffer when its capacity is at least the
request.

## Model

| member | source | states |
|---|---|---|
| `ErrStrSpec.MaxCapacity` | src/errstr.c:43-45 | the largest capacity is ERRSTR_MAX_BUF_SIZE - 1, leaving room for the NUL, and is at least the default capacity (the static assertion at src/errstr.c:21) |
| `ErrStrSpec.DefaultCapacity` | src/errstr.c:111 | a thread's first buffer has capacity ERRSTR_DEFAULT_BUF_SIZE - 1, which is within the maximum |
| `ErrStrSpec.Render` | src/errstr.c:162-168 | the rendered text is the formatter's output when it succeeded and is shorter than ERRSTR_MAX_BUF_SIZE, and `"(format error) "` otherwise; either way it is shorter than ERRSTR_MAX_BUF_SIZE |
| `ErrStrSpec.Snapshot.Space` | src/errstr.c:47-49 | free space plus content length equals the capacity |
| `ErrStrSpec.Resized` | src/errstr.c:85-99 | resize keeps the content; the capacity becomes the request exactly when the buffer already has it or the request is a permitted growth whose allocation succeeds; otherwise the buffer is unchanged |
| `ErrStrSpec.ResizedAsWritten` | src/errstr.c:85-99 | as written, resize either returns the buffer unchanged or a buffer of the requested (not smaller) capacity with empty content |
| `ErrStrSpec.Prepend` | src/errstr.c:170-186 | result stays within `length <= capacity <= max` and never shrinks; a text that fits the free space is put in front of the old content with capacity unchanged; with a successful allocation and total within the maximum the content is text plus old content; growth only happens on successful allocation and only to `min(text + length, max)`, and on overflow a successful allocation always reaches that capacity; the new length is `min(text + old length, capacity)`; the content is the newest prefix of the text followed by the newest prefix of the old content |
| `ErrStrSpec.PrependAsWritten` | src/errstr.c:170-186 | the literal C arithmetic either yields a valid buffer of at least the old capacity whose content starts with the text, or a write starting before the storage, which needs a text longer than the capacity |
| `ErrStrSpec.PrependAll` | src/errstr.c:170-186 | any series of prepends, whatever the allocation outcomes, keeps `length <= capacity <= ERRSTR_MAX_BUF_SIZE - 1` and never shrinks the capacity |
| `ErrStrSpec.PrependAllConcatenates` | src/errstr.c:170-186 | with successful allocations and a total within the maximum, the content is the prepended texts newest first followed by the old content, and its length is the sum of their lengths |
| `ErrStrSpec.NewestTextReadsFirst` | src/errstr.c:177-183 | after any series of prepends, the content starts with the most recent text when that text fits the initial capacity (oldest bytes are the ones dropped) |
| `ErrStrSpec.AsWrittenAgreesWhenFits` | src/errstr.c:183-186 | when the text fits the free space, the code as written gives exactly the intended result |
| `ErrStrSpec.AsWrittenAgreesWithoutGrowth` | src/errstr.c:177-185 | when allocation fails and the text alone fits the capacity, the code as written gives exactly the intended result (truncate the old tail, buffer becomes full) |
| `ErrStrSpec.ResizeLosesContentAsWritten` | src/errstr.c:85-99 | as written, an overflowing prepend that grows a non-empty buffer leaves only the new text; the intended result keeps the old content behind it |
| `ErrStrSpec.FullBufferEmptiedAsWritten` | src/errstr.c:86-88 | as written, a full buffer at maximum capacity is reallocated at the same size and emptied; the intended result stays full, new text first, then the newest old bytes |
| `ErrStrSpec.UnderflowWritesBeforeStorage` | src/errstr.c:177-183 | as written, a failed allocation with a text longer than the capacity skips truncation and writes starting at the negative offset `capacity - length - text`; the intended result keeps the first `capacity` bytes of the text |
| `ErrStr.Buffer.LocWithCapacityAndLength` | src/errstr.c:51-53 | the start index of `len` right-aligned characters plus `len` is `cap` |
| `ErrStr.Buffer.LocWithLength` | src/errstr.c:55-57 | the same with the buffer's own capacity |
| `ErrStr.Buffer.Loc` | src/errstr.c:59-61 | the content starts `length` characters before index `capacity` |
| `ErrStr.Buffer.Space` | src/errstr.c:47-49 | the free space is exactly the characters in front of the content start |
| `ErrStr.Buffer.Content` | src/errstr.c:59-61 | the content has `length` characters, character i being `storage[Loc() + i]` |
| `ErrStr.Buffer.Snap` | src/errstr.c:23-28 | the value view of a buffer is valid and carries its capacity and content |
| `ErrStr.Buffer.Allocated` | src/errstr.c:73-75 | a new buffer has the given capacity, length 0 and a NUL at `storage[capacity]` |
| `ErrStr.Buffer.Allocate` | src/errstr.c:63-83 | allocation succeeds exactly when the capacity is at most ERRSTR_MAX_BUF_SIZE - 1 and the allocation succeeds; the result is fresh, empty, of exactly that capacity, NUL-terminated |
| `ErrStr.Buffer.ResizeAsWritten` | src/errstr.c:85-99 | returns this buffer untouched when its capacity exceeds the request or allocation fails; otherwise a fresh buffer of the requested capacity whose last `old length` bytes are the old content but whose length is 0 |
| `ErrStr.Buffer.Resize` | src/errstr.c:85-99 | the corrected resize: the new buffer's value is `ErrStrSpec.Resized` of the old one, content kept |
| `ErrStr.Buffer.Clear` | src/errstr.c:138 | length becomes 0; capacity and storage bytes are untouched |
| `ErrStr.Buffer.KeepNewest` | src/errstr.c:177-181 | the memmove keeps exactly the first `keep` (newest) characters of the content at the right edge, and the bytes in front of them are unchanged |
| `ErrStr.Buffer.PutInFront` | src/errstr.c:183-185 | the memcpy makes the content `text + old content`, adds the text length, and leaves the bytes in front unchanged |
| `ErrStr.Buffer.PrependRendered` | src/errstr.c:170-186 | the buffer now in use has the value `ErrStrSpec.Prepend` of the old one, the returned count is its length; when the text fits, it is the same buffer and the bytes in front of the new content are unchanged |
| `ErrStr.ErrorContext.Text` | src/errstr.c:114-130 | a thread with no buffer reads as the empty string, otherwise as its buffer's content |
| `ErrStr.ErrorContext.Current` | src/errstr.c:101-112 | the buffer a prepend works on is the thread's buffer's value, or an empty buffer of the default capacity when the thread has none |
| `ErrStr.ErrorContext.Get` | src/errstr.c:101-112 | returns the existing buffer, or on first use a fresh empty buffer of capacity ERRSTR_DEFAULT_BUF_SIZE - 1, or null when that allocation fails; the string read is unchanged |
| `ErrStr.ErrorContext.Length` | src/errstr.c:114-121 | returns the length of the thread's string, 0 when it has no buffer; a buffer it allocates on first use is empty and of the default capacity |
| `ErrStr.ErrorContext.Location` | src/errstr.c:123-130 | returns the content, NUL-terminated at `storage[capacity]`, or None exactly when there is no buffer; a buffer it allocates on first use is empty and of the default capacity |
| `ErrStr.ErrorContext.Clear` | src/errstr.c:132-139 | the string becomes empty, capacity retained, storage bytes unchanged; no visible change without a buffer (it may allocate an empty default buffer); so a second clear changes nothing |
| `ErrStr.ErrorContext.Present` | src/errstr.c:141-143 | true exactly when the string is non-empty; a buffer it allocates on first use is empty and of the default capacity |
| `ErrStr.TestClear` | test/errstrftest.cpp:10-18 | on a fresh thread a prepend reports a non-zero length and content is present; after a clear the length is 0 and nothing is present |
| `ErrStr.TestBasic` | test/errstrftest.cpp:20-26 | after a clear, prepending "test" reports 4, reads "test" and content is present |
| `ErrStr.TestCompound` | test/errstrftest.cpp:28-35 | after a clear, "test" then "test2: " report 4 and 11, and the string reads "test2: test" |
| `ErrStr.ErrorContext.Prepend` | src/errstr.c:156-187 | with a buffer, its new value is `ErrStrSpec.Prepend` of the old (or default) buffer with the rendered text, and the result is the new length; when the text fits the free space of an existing buffer, the same buffer is kept (no allocation); 0 with no buffer |

## Left out

- The C code works in bytes; the model uses `string`, one `char` standing for one byte. Lengths, truncation points and the formatter's count are byte counts, and the buffer never interprets the bytes.

- The pthread key, `pthread_once` and the per-thread destructor (src/errstr.c:30-41, 101-104): one thread's slot is modelled as `ErrorContext`; isolation between threads and freeing at thread exit are not modelled. A failed key creation behaves like an allocation that always fails.
- `malloc`/`free` and the flexible array member: allocation is a boolean outcome; freeing the old buffer after a resize is not modelled.
- `vsnprintf`, printf format semantics and the `va_list` wrapper `errstrf` (src/errstr.c:145-154, 164): the formatter's outcome is a parameter.
- `errstr_location` returns a pointer into the storage; the model returns the content as a string.
- include/errstr.h holds only declarations and the `errstrlen`/`errstr` macros.
- ErrStr.ErrorContext.Prepend: does not model the out-of-bounds write of the code as written; it uses the corrected prepend, and the write is exhibited by `ErrStrSpec.UnderflowWritesBeforeStorage`.
- ErrStr.Buffer.Resize: uses `>=` and copies the length, unlike src/errstr.c:86 and :95; the code as written is `ErrStr.Buffer.ResizeAsWritten`.

## Findings

| source | as written | input that shows it | evidently intended | confidence | as-written member | corrected member |
|---|---|---|---|---|---|---|
| src/errstr.c:95 | `errstrbuf_resize` copies the old bytes but never sets `nbuf->length`, which stays 0 | capacity 255 holding 200 bytes, a 100-byte message, allocation succeeds: the content becomes only the 100 new bytes | the new buffer takes over the old length, so the content is the message followed by the old 200 bytes | high, not executed | `ErrStrSpec.ResizeLosesContentAsWritten` | `ErrStr.Buffer.Resize` |
| src/errstr.c:86 | the keep-the-buffer test is strict, so a buffer already at the maximum is reallocated at the same size | capacity 8191 holding 8191 bytes, a 1-byte message, allocation succeeds: the content becomes the 1 new byte | keep the full buffer and drop its oldest byte | high, not executed | `ErrStrSpec.FullBufferEmptiedAsWritten` | `ErrStrSpec.Prepend` |
| src/errstr.c:177 | `capacity - prepend_length` is computed in `size_t` and wraps when the message is longer than the capacity | capacity 255 holding 10 bytes, a 300-byte message, allocation fails: truncation is skipped and the copy starts 55 bytes before the storage | clamp the message to the capacity and drop all old content | high, not executed | `ErrStrSpec.UnderflowWritesBeforeStorage` | `ErrStr.Buffer.PrependRendered` |
