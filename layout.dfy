/** The reader's contract as pure functions over an immutable buffer: each read at a cursor
    position yields a value and the position after it (a `Step`). */
module Layout {
  import opened Bytes
  import opened Results

  /** Width of a stored offset: 32-bit or 64-bit address space. */
  datatype OffsetSize = Offset32 | Offset64

  /** The immutable input: the bytes, their byte order and the offset width. */
  datatype Buffer = Buffer(data: seq<byte>, endian: Endian, offsets: OffsetSize) {
    /** W, the number of bytes an offset field occupies. */
    function W(): (w: nat)
      ensures w == 4 || w == 8
    {
      if offsets == Offset64 then 8 else 4
    }
  }

  /** A decoded value together with the cursor position just after it. */
  datatype Step<T> = Step(val: T, next: nat)

  // Values of fixed-width fields at an absolute position.

  function SByteAt(b: Buffer, p: nat): SByte
    requires p + 1 <= |b.data|
  {
    SByteOf(b.data[p])
  }

  function Int32At(b: Buffer, p: nat): Int32
    requires p + 4 <= |b.data|
  {
    Int32Of(b.data, p, b.endian)
  }

  function UInt32At(b: Buffer, p: nat): UInt32
    requires p + 4 <= |b.data|
  {
    UInt32Of(b.data, p, b.endian)
  }

  function Int64At(b: Buffer, p: nat): Int64
    requires p + 8 <= |b.data|
  {
    Int64Of(b.data, p, b.endian)
  }

  function OffsetAt(b: Buffer, p: nat): nat
    requires p + b.W() <= |b.data|
  {
    UnsignedAt(b.data, p, b.W(), b.endian)
  }

  /** The bytes of the null-terminated string that starts at `q`, without the terminator. */
  function CString(data: seq<byte>, q: nat): Result<seq<byte>>
    decreases |data| - q
  {
    if q >= |data| then Err(MalformedString)
    else if data[q] == 0 then Ok([])
    else
      var rest :- CString(data, q + 1);
      Ok([data[q]] + rest)
  }

  /** A string is the run of non-zero bytes up to the first zero; without a zero there is
      no string. */
  lemma {:induction false} CStringFacts(data: seq<byte>, q: nat)
    ensures var r := CString(data, q);
            && (r.Ok? ==> q + |r.value| < |data| && data[q + |r.value|] == 0
                          && r.value == data[q..q + |r.value|]
                          && forall k :: 0 <= k < |r.value| ==> r.value[k] != 0)
            && (r.Err? ==> r.error == MalformedString
                           && forall k :: q <= k < |data| ==> data[k] != 0)
    decreases |data| - q
  {
    if q < |data| && data[q] != 0 {
      CStringFacts(data, q + 1);
    }
  }

  /** ReadString at the cursor: the string, and the cursor just past its terminator. */
  function StringField(b: Buffer, p: nat): Result<Step<seq<byte>>>
  {
    var s :- CString(b.data, p);
    Ok(Step(s, p + |s| + 1))
  }

  /** ReadStringAtOffset: null for the absent offset, otherwise the string stored there. */
  function StringAtOffset(b: Buffer, off: nat): Result<Option<seq<byte>>>
  {
    if off == 0 then Ok(None)
    else if off >= |b.data| then Err(InvalidOffset(off))
    else
      var s :- CString(b.data, off);
      Ok(Some(s))
  }

  /** ReadAtOffset: an absent offset leaves `current` as it is; any other offset must lie in
      the buffer, and the body decoded there gives the new value. Where the body leaves the
      cursor is dropped: the caller continues from its own position. */
  function Follow<T>(b: Buffer, off: nat, current: T, body: nat -> Result<Step<T>>): Result<T>
  {
    if off == 0 then Ok(current)
    else if off >= |b.data| then Err(InvalidOffset(off))
    else
      var s :- body(off);
      Ok(s.val)
  }

  /** The body of a counted loop: `count` records decoded one after another from `p`, in file
      order. A count of zero or less decodes nothing. */
  function Array<T>(dec: nat -> Result<Step<T>>, p: nat, count: int): Result<Step<seq<T>>>
    decreases count
  {
    if count <= 0 then Ok(Step([], p))
    else
      var first :- dec(p);
      var rest :- Array(dec, first.next, count - 1);
      Ok(Step([first.val] + rest.val, rest.next))
  }

  function Max0(count: int): nat
  {
    if count <= 0 then 0 else count
  }

  /** Every successful decode by `dec` consumes exactly `width` bytes. */
  ghost predicate Advances<T>(dec: nat -> Result<Step<T>>, width: nat)
  {
    forall q: nat :: dec(q).Ok? ==> dec(q).value.next == q + width
  }

  /** `xs` is what `dec` decodes at `base`, `base + width`, `base + 2 * width`, ... */
  ghost predicate Strided<T>(dec: nat -> Result<Step<T>>, base: nat, width: nat, xs: seq<T>)
  {
    forall i :: 0 <= i < |xs| ==> dec(base + i * width) == Ok(Step(xs[i], base + i * width + width))
  }

  /** A decoded array holds exactly `count` elements (none for a negative count), element `i`
      is the record at `p + i * width`, and the cursor ends just past the last one. */
  lemma {:induction false} ArrayLaidOut<T>(dec: nat -> Result<Step<T>>, width: nat, p: nat, count: int)
    requires Advances(dec, width)
    requires Array(dec, p, count).Ok?
    ensures |Array(dec, p, count).value.val| == Max0(count)
    ensures Array(dec, p, count).value.next == p + Max0(count) * width
    ensures Strided(dec, p, width, Array(dec, p, count).value.val)
    decreases count
  {
    if count > 0 {
      var first := dec(p).value;
      ArrayLaidOut(dec, width, first.next, count - 1);
      var xs := Array(dec, p, count).value.val;
      var rest := Array(dec, first.next, count - 1).value.val;
      assert xs == [first.val] + rest;
      forall i | 0 <= i < |xs|
        ensures dec(p + i * width) == Ok(Step(xs[i], p + i * width + width))
      {
        if i > 0 {
          assert p + i * width == p + width + (i - 1) * width;
        }
      }
    }
  }

  /** Conversely, when each of the `count` records decodes, so does the array. */
  lemma {:induction false} ArrayDefined<T>(dec: nat -> Result<Step<T>>, width: nat, p: nat, count: int)
    requires Advances(dec, width)
    requires forall i :: 0 <= i < count ==> dec(p + i * width).Ok?
    ensures Array(dec, p, count).Ok?
    decreases count
  {
    if count > 0 {
      assert dec(p + 0 * width).Ok?;
      forall i | 0 <= i < count - 1
        ensures dec(p + width + i * width).Ok?
      {
        assert p + width + i * width == p + (i + 1) * width;
      }
      ArrayDefined(dec, width, p + width, count - 1);
    }
  }

  /** The first record that fails to decode decides the error of the whole array. */
  lemma {:induction false} ArrayFirstError<T>(dec: nat -> Result<Step<T>>, width: nat, p: nat, count: int, k: nat)
    requires Advances(dec, width)
    requires k < count
    requires forall i :: 0 <= i < k ==> dec(p + i * width).Ok?
    requires dec(p + k * width).Err?
    ensures Array(dec, p, count) == Err(dec(p + k * width).error)
    decreases k
  {
    if k == 0 {
      assert p + k * width == p;
    } else {
      assert dec(p + 0 * width).Ok?;
      forall i | 0 <= i < k - 1
        ensures dec(p + width + i * width).Ok?
      {
        assert p + width + i * width == p + (i + 1) * width;
      }
      assert p + width + (k - 1) * width == p + k * width;
      ArrayFirstError(dec, width, p + width, count - 1, k - 1);
    }
  }

  /** One more record decoded after the first `n`: the prefix grows by it, in file order. */
  lemma {:induction false} ArraySnoc<T>(dec: nat -> Result<Step<T>>, p: nat, n: nat, xs: seq<T>, q: nat, x: T, q': nat)
    requires Array(dec, p, n) == Ok(Step(xs, q))
    requires dec(q) == Ok(Step(x, q'))
    ensures Array(dec, p, n + 1) == Ok(Step(xs + [x], q'))
    decreases n
  {
    if n == 0 {
      assert [x] + [] == xs + [x];
    } else {
      var first := dec(p).value;
      var rest := Array(dec, first.next, n - 1).value;
      ArraySnoc(dec, first.next, n - 1, rest.val, q, x, q');
      assert [first.val] + (rest.val + [x]) == xs + [x];
    }
  }

  /** A record that fails after the first `n` fails every longer array at that record. */
  lemma {:induction false} ArrayCut<T>(dec: nat -> Result<Step<T>>, p: nat, n: nat, count: int, xs: seq<T>, q: nat)
    requires n < count
    requires Array(dec, p, n) == Ok(Step(xs, q))
    requires dec(q).Err?
    ensures Array(dec, p, count) == Err(dec(q).error)
    decreases n
  {
    if n > 0 {
      var first := dec(p).value;
      var rest := Array(dec, first.next, n - 1).value;
      ArrayCut(dec, first.next, n - 1, count - 1, rest.val, q);
    }
  }

  /** When the counted loop stops after `n` iterations, the first `n` records are the array. */
  lemma ArrayExit<T>(dec: nat -> Result<Step<T>>, p: nat, n: nat, count: int)
    requires n <= Max0(count) && n >= count
    ensures Array(dec, p, count) == Array(dec, p, n)
  {
  }

  /** A method's outcome paired with the cursor it leaves, in the shape of a decode. */
  function Lift<T>(res: Result<T>, pos: nat): Result<Step<T>>
  {
    match res
    case Ok(v) => Ok(Step(v, pos))
    case Err(e) => Err(e)
  }

  /** A method agrees with a cursor-threaded decode when the decode is its outcome together
      with its final cursor: the same value and position on success, the same error on
      failure. */
  ghost predicate Agrees<T>(res: Result<T>, pos: nat, spec: Result<Step<T>>)
  {
    spec == Lift(res, pos)
  }

  /** A failed method outcome pins down the decode it agrees with. */
  lemma AgreesErr<T>(res: Result<T>, pos: nat, spec: Result<Step<T>>)
    requires Agrees(res, pos, spec) && res.Err?
    ensures spec == Err(res.error)
  {
  }

  /** A successful method outcome pins down the decode it agrees with. */
  lemma AgreesOk<T>(res: Result<T>, pos: nat, spec: Result<Step<T>>)
    requires Agrees(res, pos, spec) && res.Ok?
    ensures spec == Ok(Step(res.value, pos))
  {
  }
}
