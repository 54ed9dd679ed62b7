/** The byte queue that asio's dynamic buffers promise: what a caller may
    observe of `basic_streambuf`, `dynamic_string_buffer` and
    `dynamic_vector_buffer` as long as it writes to the region that the last
    prepare returned and commits no more than was prepared. Committed bytes that
    nobody wrote are left open. */
module Fifo {
  import opened Buffers
  import opened Numbers
  import opened Wrappers

  /** A byte of the queue; none where a commit went past what the caller wrote. */
  type Cell = Option<byte>

  function Written(bytes: seq<byte>): (cells: seq<Cell>)
    ensures |cells| == |bytes| && forall i :: 0 <= i < |bytes| ==> cells[i] == Some(bytes[i])
  {
    seq(|bytes|, i requires 0 <= i < |bytes| => Some(bytes[i]))
  }

  function Unwritten(n: nat): (cells: seq<Cell>)
    ensures |cells| == n && forall i :: 0 <= i < n ==> cells[i] == None
  {
    seq(n, i => None)
  }

  /** `pending` is what the caller has written to the last prepared region, of
      `prepared` bytes; both are forgotten by the next operation that uses it up.
      `taken` counts the bytes taken from the front since that prepare. */
  datatype Queue = Queue(maxSize: nat, contents: seq<Cell>, pending: seq<byte>, prepared: nat, taken: nat)

  datatype Op =
    | Prepare(n: nat)
    | Write(bytes: seq<byte>)
    | Commit(n: nat)
    | Consume(n: nat)
    | Put(c: byte)  // a character through std::streambuf
    | Get           // a character through std::streambuf

  datatype Observation =
    | Holds(contents: seq<Cell>)
    | Read(c: Option<Cell>, contents: seq<Cell>)
    | Throws

  function Empty(maxSize: nat): Queue {
    Queue(maxSize, [], [], 0, 0)
  }

  /** The caller's side: write inside the prepared region, commit no more than it. */
  predicate Legal(q: Queue, op: Op) {
    match op
    case Write(bytes) => |bytes| <= q.prepared
    case Commit(n) => n <= q.prepared
    case _ => true
  }

  /** What a string or vector buffer offers. Taking bytes from its front moves the
      output sequence, so that a region prepared before no longer is its start. */
  predicate LegalDynamic(q: Queue, op: Op) {
    Legal(q, op) && !op.Put? && !op.Get? && (op.Write? ==> q.taken == 0)
  }

  /** What a commit of n prepared bytes appends: what was written, then nobody's bytes. */
  function Committed(q: Queue, n: nat): (cells: seq<Cell>)
    ensures |cells| == n
  {
    var k := Min(n, |q.pending|);
    Written(q.pending[..k]) + Unwritten(n - k)
  }

  function Step(q: Queue, op: Op): (r: (Queue, Observation))
    requires Legal(q, op)
  {
    match op
    case Prepare(n) =>
      if |q.contents| + n > q.maxSize then (q, Throws) else
        (q.(pending := [], prepared := n, taken := 0), Holds(q.contents))
    case Write(bytes) =>
      (q.(pending := bytes), Holds(q.contents))
    case Commit(n) =>
      (q.(contents := q.contents + Committed(q, n), pending := [], prepared := 0), Holds(q.contents + Committed(q, n)))
    case Consume(n) =>
      var k := Min(n, |q.contents|);
      (q.(contents := q.contents[k..], taken := q.taken + k), Holds(q.contents[k..]))
    case Put(c) =>
      if |q.contents| == q.maxSize then (q, Throws) else
        (q.(contents := q.contents + [Some(c)], pending := [], prepared := 0), Holds(q.contents + [Some(c)]))
    case Get =>
      if q.contents == [] then (q, Read(None, [])) else
        (q.(contents := q.contents[1..], taken := q.taken + 1), Read(Some(q.contents[0]), q.contents[1..]))
  }

  /** Every call of the trace is legal where it is made; nothing is asked after a throw. */
  predicate LegalTrace(q: Queue, ops: seq<Op>)
    decreases |ops|
  {
    ops == [] ||
    (Legal(q, ops[0]) && (Step(q, ops[0]).1 == Throws || LegalTrace(Step(q, ops[0]).0, ops[1..])))
  }

  /** The same for the calls of a string or vector buffer. */
  predicate LegalDynamicTrace(q: Queue, ops: seq<Op>)
    ensures LegalDynamicTrace(q, ops) ==> LegalTrace(q, ops)
    decreases |ops|
  {
    ops == [] ||
    (LegalDynamic(q, ops[0]) && (Step(q, ops[0]).1 == Throws || LegalDynamicTrace(Step(q, ops[0]).0, ops[1..])))
  }

  /** What is seen after each call, up to the first throw. */
  function Observe(q: Queue, ops: seq<Op>): (seen: seq<Observation>)
    requires LegalTrace(q, ops)
    decreases |ops|
  {
    if ops == [] then [] else
      var (next, seen) := Step(q, ops[0]);
      if seen == Throws then [seen] else [seen] + Observe(next, ops[1..])
  }

  // ------------------------------------------------ what an implementation shows

  /** The same with actual bytes everywhere. */
  datatype Sight =
    | Shows(contents: seq<byte>)
    | Reads(c: Option<byte>, contents: seq<byte>)
    | Fails

  /** The bytes that were written are there, and as many others as were committed. */
  ghost predicate Agrees(bytes: seq<byte>, cells: seq<Cell>) {
    |bytes| == |cells| && forall i :: 0 <= i < |cells| && cells[i].Some? ==> cells[i].value == bytes[i]
  }

  /** The call shows what the queue shows: the same size, the same throw, the same written bytes. */
  ghost predicate Meets(sight: Sight, seen: Observation) {
    match seen
    case Holds(cells) => sight.Shows? && Agrees(sight.contents, cells)
    case Read(c, cells) =>
      && sight.Reads? && Agrees(sight.contents, cells) && (sight.c.Some? <==> c.Some?)
      && (c.Some? && c.value.Some? ==> sight.c == c.value)
    case Throws => sight.Fails?
  }

  ghost predicate AllMeet(sights: seq<Sight>, seen: seq<Observation>) {
    |sights| == |seen| && forall i :: 0 <= i < |seen| ==> Meets(sights[i], seen[i])
  }

  lemma OneMoreMeets(sights: seq<Sight>, seen: seq<Observation>, sight: Sight, one: Observation)
    requires AllMeet(sights, seen) && Meets(sight, one)
    ensures AllMeet(sights + [sight], seen + [one])
  {
    hide Meets;
  }

  /** Two runs of bytes agree wherever something was written. */
  ghost predicate SameWhereWritten(a: seq<byte>, b: seq<byte>, cells: seq<Cell>) {
    |a| == |b| == |cells| && forall i :: 0 <= i < |cells| && cells[i].Some? ==> a[i] == b[i]
  }

  /** Two sights agree in all but the bytes nobody wrote. */
  ghost predicate SameButUnwritten(a: Sight, b: Sight, seen: Observation) {
    match seen
    case Holds(cells) => a.Shows? && b.Shows? && SameWhereWritten(a.contents, b.contents, cells)
    case Read(c, cells) =>
      && a.Reads? && b.Reads? && SameWhereWritten(a.contents, b.contents, cells)
      && (a.c.Some? <==> b.c.Some?) && (c.Some? && c.value.Some? ==> a.c == b.c)
    case Throws => a.Fails? && b.Fails?
  }

  /** Whatever shows what the queue shows has the same sizes and throws on every
      trace, and the same contents but for bytes nobody wrote. */
  lemma MeetingIsAgreeing(xs: seq<Sight>, ys: seq<Sight>, seen: seq<Observation>)
    requires AllMeet(xs, seen) && AllMeet(ys, seen)
    ensures |xs| == |ys| == |seen| && forall i :: 0 <= i < |seen| ==> SameButUnwritten(xs[i], ys[i], seen[i])
  {
    forall i | 0 <= i < |seen| ensures SameButUnwritten(xs[i], ys[i], seen[i]) {
      assert Meets(xs[i], seen[i]) && Meets(ys[i], seen[i]);
    }
  }

  /** No commit of the trace goes past what was written. */
  predicate CommitsWritten(q: Queue, ops: seq<Op>)
    requires LegalTrace(q, ops)
    decreases |ops|
  {
    ops == [] ||
    ((ops[0].Commit? ==> ops[0].n <= |q.pending|) &&
     (Step(q, ops[0]).1 == Throws || CommitsWritten(Step(q, ops[0]).0, ops[1..])))
  }

  ghost predicate AllWritten(cells: seq<Cell>) {
    forall i :: 0 <= i < |cells| ==> cells[i].Some?
  }

  ghost predicate IsWritten(seen: Observation) {
    match seen
    case Holds(cells) => AllWritten(cells)
    case Read(c, cells) => AllWritten(cells) && (c.Some? ==> c.value.Some?)
    case Throws => true
  }

  /** Such a trace leaves nothing open: every byte that is seen was written. */
  lemma {:induction false} WrittenTraceIsWritten(q: Queue, ops: seq<Op>, i: nat)
    requires LegalTrace(q, ops) && CommitsWritten(q, ops) && AllWritten(q.contents) && i < |Observe(q, ops)|
    ensures IsWritten(Observe(q, ops)[i])
    decreases |ops|
  {
    StepIsWritten(q, ops[0]);
    if i > 0 {
      WrittenTraceIsWritten(Step(q, ops[0]).0, ops[1..], i - 1);
    }
  }

  lemma StepIsWritten(q: Queue, op: Op)
    requires Legal(q, op) && AllWritten(q.contents) && (op.Commit? ==> op.n <= |q.pending|)
    ensures IsWritten(Step(q, op).1) && (Step(q, op).1 != Throws ==> AllWritten(Step(q, op).0.contents))
  {
  }

  /** What meets an observation that is all written is determined by it. */
  lemma WrittenIsDetermined(a: Sight, b: Sight, seen: Observation)
    requires Meets(a, seen) && Meets(b, seen) && IsWritten(seen)
    ensures a == b
  {
    if !seen.Throws? {
      assert a.contents == b.contents;
    }
  }

  // ------------------------------------------------ what makes it a bounded queue

  /** What one call puts in at the back. */
  function In(q: Queue, op: Op): seq<Cell>
    requires Legal(q, op)
  {
    match op
    case Commit(n) => Committed(q, n)
    case Put(c) => [Some(c)]
    case _ => []
  }

  /** What one call takes out at the front. */
  function Out(q: Queue, op: Op): seq<Cell> {
    match op
    case Consume(n) => q.contents[..Min(n, |q.contents|)]
    case Get => if q.contents == [] then [] else [q.contents[0]]
    case _ => []
  }

  lemma StepConserves(q: Queue, op: Op)
    requires Legal(q, op) && Step(q, op).1 != Throws
    ensures q.contents + In(q, op) == Out(q, op) + Step(q, op).0.contents
  {
  }

  lemma Associate<T>(a: seq<T>, b: seq<T>, c: seq<T>)
    ensures (a + b) + c == a + (b + c)
  {
  }

  predicate Runs(q: Queue, ops: seq<Op>)
    requires LegalTrace(q, ops)
  {
    ops != [] && Step(q, ops[0]).1 != Throws
  }

  function BytesIn(q: Queue, ops: seq<Op>): seq<Cell>
    requires LegalTrace(q, ops)
    decreases |ops|
  {
    if Runs(q, ops) then In(q, ops[0]) + BytesIn(Step(q, ops[0]).0, ops[1..]) else []
  }

  function BytesOut(q: Queue, ops: seq<Op>): seq<Cell>
    requires LegalTrace(q, ops)
    decreases |ops|
  {
    if Runs(q, ops) then Out(q, ops[0]) + BytesOut(Step(q, ops[0]).0, ops[1..]) else []
  }

  function Final(q: Queue, ops: seq<Op>): Queue
    requires LegalTrace(q, ops)
    decreases |ops|
  {
    if Runs(q, ops) then Final(Step(q, ops[0]).0, ops[1..]) else q
  }

  /** First in, first out, nothing lost and nothing made up:
      what was there plus what went in is what came out plus what remains. */
  lemma {:induction false} FirstInFirstOut(q: Queue, ops: seq<Op>)
    requires LegalTrace(q, ops)
    ensures q.contents + BytesIn(q, ops) == BytesOut(q, ops) + Final(q, ops).contents
    decreases |ops|
  {
    if Runs(q, ops) {
      var next := Step(q, ops[0]).0;
      FirstInFirstOut(next, ops[1..]);
      StepConserves(q, ops[0]);
      var (i, o) := (In(q, ops[0]), Out(q, ops[0]));
      Associate(q.contents, i, BytesIn(next, ops[1..]));
      Associate(o, next.contents, BytesIn(next, ops[1..]));
      Associate(o, BytesOut(next, ops[1..]), Final(next, ops[1..]).contents);
    }
  }

  /** The queue never holds more than its bound, whatever is asked of it. */
  lemma {:induction false} NeverOverBound(q: Queue, ops: seq<Op>)
    requires LegalTrace(q, ops)
    requires |q.pending| <= q.prepared && |q.contents| + q.prepared <= q.maxSize
    ensures |Final(q, ops).contents| <= q.maxSize
    decreases |ops|
  {
    if Runs(q, ops) {
      NeverOverBound(Step(q, ops[0]).0, ops[1..]);
    }
  }
}
