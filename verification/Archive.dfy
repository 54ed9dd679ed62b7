/** The bookkeeping of cereal's archives (cereal.hpp and types/memory.hpp): class
    versions written once per class, shared pointers written once per object. */
module Archive {
  import opened Sets
  import opened Wrappers

  type Address = nat
  type Hash = nat
  type TypeName = nat

  const WORDS: nat := 0x1_0000_0000
  const TOP_BIT: nat := 0x8000_0000

  /** Everything in the stream is a 32-bit word; nothing says what a word is for. */
  type Word = w: nat | w < WORDS

  /** What a program serializes. Address zero is the null pointer. A versioned value
      carries the version its serialize function is called with. */
  datatype Value =
    | Number(n: Word)
    | Struct(fields: seq<Value>)
    | Versioned(version: Word, contents: Value)
    | Pointer(to: Address)

  /** The static type that drives the reader. The layout of a versioned class depends
      on its version; a pointer names its target's type, so types may be recursive. */
  datatype Type =
    | NumberType
    | StructType(fieldTypes: seq<Type>)
    | VersionedType(hash: Hash, layouts: seq<Type>)
    | SharedType(name: TypeName)

  /** The objects behind shared pointers, the types by name, and the version registry. */
  datatype Graph = Graph(heap: map<Address, Value>, typeOf: map<Address, TypeName>,
                         types: map<TypeName, Type>, versions: map<Hash, Word>)
  {
    ghost predicate HasType(v: Value, t: Type)
      decreases v, t
    {
      match t
      case NumberType => v.Number?
      case StructType(ts) =>
        v.Struct? && |v.fields| == |ts| && forall i :: 0 <= i < |ts| ==> HasType(v.fields[i], ts[i])
      case VersionedType(hash, layouts) =>
        && v.Versioned? && hash in versions && v.version == versions[hash] < |layouts|
        && HasType(v.contents, layouts[v.version])
      case SharedType(name) =>
        v.Pointer? && (v.to != 0 ==> v.to in heap && v.to in typeOf && typeOf[v.to] == name)
    }

    ghost predicate HasTypes(vs: seq<Value>, ts: seq<Type>) {
      |vs| == |ts| && forall i :: 0 <= i < |ts| ==> HasType(vs[i], ts[i])
    }

    /** Every object is well typed, and there are fewer than 2^31 of them. */
    ghost predicate Valid() {
      |heap| < TOP_BIT && 0 !in heap &&
      forall a :: a in heap ==> a in typeOf && typeOf[a] in types && HasType(heap[a], types[typeOf[a]])
    }
  }

  // ------------------------------------------------ ids

  predicate HasTop(id: Word) {
    id >= TOP_BIT
  }

  function WithTop(id: Word): Word {
    if HasTop(id) then id else id + TOP_BIT
  }

  function Stripped(id: Word): Word {
    if HasTop(id) then id - TOP_BIT else id
  }

  /** The mark is the highest of 32 bits, and the id is in the others. */
  lemma MarkIsTheTopBit(id: Word)
    ensures HasTop(id) <==> id / 0x8000_0000 % 2 == 1
    ensures Stripped(id) == Stripped(WithTop(id)) == id % 0x8000_0000 && WithTop(id) == Stripped(id) + 0x8000_0000
  {
  }

  // ------------------------------------------------ writing

  datatype Writer = Writer(ptrs: map<Address, Word>, next: Word, versioned: set<Hash>)

  datatype Saved = Saved(writer: Writer, words: seq<Word>)

  const NEW_WRITER := Writer(map[], 1, {})

  /** Ids are handed out from one upwards, one to each object. */
  ghost predicate Tracks(g: Graph, w: Writer) {
    && w.ptrs.Keys <= g.heap.Keys
    && w.next == |w.ptrs| + 1
    && IdsUpTo(w.ptrs, |w.ptrs|)
    && Distinct(w.ptrs)
  }

  ghost predicate IdsUpTo(ptrs: map<Address, Word>, n: nat) {
    forall a :: a in ptrs ==> 1 <= ptrs[a] <= n
  }

  ghost predicate Distinct(ptrs: map<Address, Word>) {
    forall a, b :: a in ptrs && b in ptrs && a != b ==> ptrs[a] != ptrs[b]
  }

  ghost predicate Extends(p: map<Address, Word>, q: map<Address, Word>) {
    forall a :: a in p ==> a in q && q[a] == p[a]
  }

  function Register(w: Writer, a: Address): (Writer, Word) {
    if a == 0 then (w, 0)
    else if a in w.ptrs then (w, w.ptrs[a])
    else (w.(ptrs := w.ptrs[a := w.next], next := (w.next + 1) % WORDS), WithTop(w.next))
  }

  lemma RegisterTracks(g: Graph, w: Writer, a: Address)
    requires g.Valid() && Tracks(g, w) && (a == 0 || a in g.heap)
    ensures var (w1, id) := Register(w, a);
            && Tracks(g, w1) && Extends(w.ptrs, w1.ptrs)
            && (HasTop(id) <==> a != 0 && a !in w.ptrs)
            && (HasTop(id) ==> Stripped(id) == w.next == w1.ptrs[a] && w1.ptrs.Keys == w.ptrs.Keys + {a})
  {
    hide Graph.Valid, Tracks;
    if a == 0 {
    } else if a in w.ptrs {
      IdsAreSmall(g, w, a);
    } else {
      RoomForOneMore(g, w, a);
      FreshTracks(g, w, a);
      assert w.ptrs[a := w.next].Keys == w.ptrs.Keys + {a};
    }
  }

  lemma IdsAreSmall(g: Graph, w: Writer, a: Address)
    requires g.Valid() && Tracks(g, w) && a in w.ptrs
    ensures 1 <= w.ptrs[a] <= |w.ptrs| < TOP_BIT
  {
    SubsetSize(w.ptrs.Keys, g.heap.Keys);
  }

  lemma RoomForOneMore(g: Graph, w: Writer, a: Address)
    requires g.Valid() && Tracks(g, w) && a in g.heap && a !in w.ptrs
    ensures 1 <= w.next < TOP_BIT && a != 0
  {
    ProperSubsetSize(w.ptrs.Keys, g.heap.Keys, a);
  }

  lemma FreshTracks(g: Graph, w: Writer, a: Address)
    requires Tracks(g, w) && a in g.heap && a !in w.ptrs && a != 0 && w.next < TOP_BIT
    ensures Tracks(g, Register(w, a).0)
  {
    hide Distinct, IdsUpTo, HasTop, WithTop;
    var ptrs := w.ptrs[a := w.next];
    FreshId(w.ptrs, a, w.next);
    KeysPlusOne(w.ptrs, a, w.next);
    OneMoreIn(w.ptrs.Keys, g.heap.Keys, a);
    RegisterFresh(w, a);
  }

  lemma RegisterFresh(w: Writer, a: Address)
    requires a != 0 && a !in w.ptrs && w.next < TOP_BIT
    ensures Register(w, a).0.ptrs == w.ptrs[a := w.next] && Register(w, a).0.next == w.next + 1
  {
  }

  lemma OneMoreIn<T>(s: set<T>, t: set<T>, x: T)
    requires s <= t && x in t
    ensures s + {x} <= t
  {
  }

  lemma KeysPlusOne(ptrs: map<Address, Word>, a: Address, id: Word)
    requires a !in ptrs
    ensures ptrs[a := id].Keys == ptrs.Keys + {a} && |ptrs[a := id]| == |ptrs| + 1
  {
    assert ptrs[a := id].Keys == ptrs.Keys + {a};
    assert |ptrs[a := id].Keys| == |ptrs.Keys| + 1;
  }

  lemma FreshId(ptrs: map<Address, Word>, a: Address, id: Word)
    requires Distinct(ptrs) && IdsUpTo(ptrs, |ptrs|) && a !in ptrs && id == |ptrs| + 1
    ensures Distinct(ptrs[a := id]) && IdsUpTo(ptrs[a := id], |ptrs| + 1)
  {
  }

  lemma FewerLeft(g: Graph, w: Writer, a: Address)
    requires a in g.heap && a !in w.ptrs && a != 0
    ensures |g.heap.Keys - Register(w, a).0.ptrs.Keys| == |g.heap.Keys - w.ptrs.Keys| - 1
  {
    assert g.heap.Keys - Register(w, a).0.ptrs.Keys == (g.heap.Keys - w.ptrs.Keys) - {a};
  }

  /** The words an archive emits for a value, and its tables afterwards. */
  ghost function Save(g: Graph, w: Writer, v: Value, t: Type): (s: Saved)
    requires g.Valid() && Tracks(g, w) && g.HasType(v, t)
    ensures Tracks(g, s.writer) && Extends(w.ptrs, s.writer.ptrs)
    ensures |g.heap.Keys - s.writer.ptrs.Keys| <= |g.heap.Keys - w.ptrs.Keys|
    decreases |g.heap.Keys - w.ptrs.Keys|, v, t
  {
    match t
    case NumberType => Saved(w, [v.n])
    case StructType(ts) => SaveAll(g, w, v.fields, ts)
    case VersionedType(hash, layouts) =>
      var s := Save(g, w.(versioned := w.versioned + {hash}), v.contents, layouts[v.version]);
      if hash in w.versioned then s else Saved(s.writer, [g.versions[hash]] + s.words)
    case SharedType(name) =>
      var (w1, id) := Register(w, v.to);
      RegisterTracks(g, w, v.to);
      if HasTop(id) then
        FewerLeft(g, w, v.to);
        var s := Save(g, w1, g.heap[v.to], g.types[name]);
        Saved(s.writer, [id] + s.words)
      else Saved(w1, [id])
  }

  ghost function SaveAll(g: Graph, w: Writer, vs: seq<Value>, ts: seq<Type>): (s: Saved)
    requires g.Valid() && Tracks(g, w) && g.HasTypes(vs, ts)
    ensures Tracks(g, s.writer) && Extends(w.ptrs, s.writer.ptrs)
    ensures |g.heap.Keys - s.writer.ptrs.Keys| <= |g.heap.Keys - w.ptrs.Keys|
    decreases |g.heap.Keys - w.ptrs.Keys|, vs, ts
  {
    if vs == [] then Saved(w, []) else
      var n := |vs| - 1;
      var init := SaveAll(g, w, vs[..n], ts[..n]);
      var last := Save(g, init.writer, vs[n], ts[n]);
      Saved(last.writer, init.words + last.words)
  }

  // ------------------------------------------------ reading

  /** The reader's tables and the objects it has allocated: the k-th one gets address k. */
  datatype Reader = Reader(ids: map<Word, Address>, versions: map<Hash, Word>, objects: seq<Value>)

  datatype Loaded<T> = Loaded(reader: Reader, value: T, rest: seq<Word>)

  const NEW_READER := Reader(map[], map[], [])

  /** What an object holds between its allocation and the end of its loading. */
  const BLANK := Number(0)

  /** Reading against a type. None is an exception: out of input, an id nobody
      registered, or a version without a layout. */
  function Load(types: map<TypeName, Type>, r: Reader, input: seq<Word>, t: Type): (l: Option<Loaded<Value>>)
    ensures l.Some? ==> |l.value.rest| <= |input| && |r.objects| <= |l.value.reader.objects|
    decreases |input|, t
  {
    match t
    case NumberType => if input == [] then None else Some(Loaded(r, Number(input[0]), input[1..]))
    case StructType(ts) =>
      (match LoadAll(types, r, input, ts)
       case None => None
       case Some(l) => Some(Loaded(l.reader, Struct(l.value), l.rest)))
    case VersionedType(hash, layouts) =>
      if hash !in r.versions && input == [] then None else
        var version := if hash in r.versions then r.versions[hash] else input[0];
        var rest := if hash in r.versions then input else input[1..];
        if version >= |layouts| then None else
          (match Load(types, r.(versions := r.versions[hash := version]), rest, layouts[version])
           case None => None
           case Some(l) => Some(Loaded(l.reader, Versioned(version, l.value), l.rest)))
    case SharedType(name) =>
      if input == [] then None
      else if HasTop(input[0]) then
        if name !in types then None else
          (match Load(types, Allocated(r, Stripped(input[0])), input[1..], types[name])
           case None => None
           case Some(l) => Some(Loaded(Filled(l.reader, |r.objects|, l.value), Pointer(|r.objects| + 1), l.rest)))
      else if input[0] == 0 then Some(Loaded(r, Pointer(0), input[1..]))
      else if input[0] !in r.ids then None
      else Some(Loaded(r, Pointer(r.ids[input[0]]), input[1..]))
  }

  function LoadAll(types: map<TypeName, Type>, r: Reader, input: seq<Word>, ts: seq<Type>)
    : (l: Option<Loaded<seq<Value>>>)
    ensures l.Some? ==> |l.value.rest| <= |input| && |r.objects| <= |l.value.reader.objects|
    decreases |input|, ts
  {
    if ts == [] then Some(Loaded(r, [], input)) else
      match LoadAll(types, r, input, ts[..|ts| - 1])
      case None => None
      case Some(init) =>
        match Load(types, init.reader, init.rest, ts[|ts| - 1])
        case None => None
        case Some(last) => Some(Loaded(last.reader, init.value + [last.value], last.rest))
  }

  function Allocated(r: Reader, id: Word): Reader {
    r.(objects := r.objects + [BLANK], ids := r.ids[id := |r.objects| + 1])
  }

  function Filled(r: Reader, i: nat, v: Value): Reader
    requires i < |r.objects|
  {
    r.(objects := r.objects[i := v])
  }

  // ------------------------------------------------ writer and reader in step

  /** The value with its pointers renamed. */
  ghost function Renamed(v: Value, ptrs: map<Address, Word>): Value {
    match v
    case Number(n) => v
    case Struct(fields) => Struct(RenamedAll(fields, ptrs))
    case Versioned(version, contents) => Versioned(version, Renamed(contents, ptrs))
    case Pointer(to) => Pointer(if to in ptrs then ptrs[to] else 0)
  }

  ghost function RenamedAll(vs: seq<Value>, ptrs: map<Address, Word>): seq<Value> {
    if vs == [] then [] else RenamedAll(vs[..|vs| - 1], ptrs) + [Renamed(vs[|vs| - 1], ptrs)]
  }

  /** Every pointer in the value is null or known. */
  ghost predicate Covered(v: Value, known: set<Address>) {
    match v
    case Number(n) => true
    case Struct(fields) => AllCovered(fields, known)
    case Versioned(version, contents) => Covered(contents, known)
    case Pointer(to) => to == 0 || to in known
  }

  ghost predicate AllCovered(vs: seq<Value>, known: set<Address>) {
    vs != [] ==> AllCovered(vs[..|vs| - 1], known) && Covered(vs[|vs| - 1], known)
  }

  lemma {:induction false} RenamedStable(v: Value, p: map<Address, Word>, q: map<Address, Word>)
    requires Extends(p, q) && 0 !in q && Covered(v, p.Keys)
    ensures Covered(v, q.Keys) && Renamed(v, p) == Renamed(v, q)
  {
    match v
    case Number(n) =>
    case Struct(fields) => AllRenamedStable(fields, p, q);
    case Versioned(version, contents) => RenamedStable(contents, p, q);
    case Pointer(to) =>
  }

  lemma {:induction false} AllRenamedStable(vs: seq<Value>, p: map<Address, Word>, q: map<Address, Word>)
    requires Extends(p, q) && 0 !in q && AllCovered(vs, p.Keys)
    ensures AllCovered(vs, q.Keys) && RenamedAll(vs, p) == RenamedAll(vs, q)
  {
    if vs != [] {
      AllRenamedStable(vs[..|vs| - 1], p, q);
      RenamedStable(vs[|vs| - 1], p, q);
    }
  }

  /** The reader has allocated exactly what the writer has registered, id for id. */
  ghost predicate IdsMatch(w: Writer, r: Reader) {
    && |r.objects| == |w.ptrs|
    && (forall k :: k in r.ids <==> 1 <= k <= |w.ptrs|)
    && (forall k :: k in r.ids ==> r.ids[k] == k)
  }

  /** The reader knows the versions of exactly the classes the writer has written. */
  ghost predicate VersionsMatch(g: Graph, w: Writer, r: Reader) {
    && r.versions.Keys == w.versioned
    && (forall h :: h in r.versions ==> h in g.versions && r.versions[h] == g.versions[h])
  }

  /** The object at the address is loaded: it is the original, pointers renamed. */
  ghost predicate IsLoaded(g: Graph, w: Writer, r: Reader, a: Address)
    requires a in w.ptrs && a in g.heap
  {
    && 1 <= w.ptrs[a] <= |r.objects|
    && Covered(g.heap[a], w.ptrs.Keys)
    && r.objects[w.ptrs[a] - 1] == Renamed(g.heap[a], w.ptrs)
  }

  /** Writer and reader are in step; the open objects are still being loaded. */
  ghost predicate InStep(g: Graph, w: Writer, r: Reader, open: set<Address>) {
    && IdsMatch(w, r) && VersionsMatch(g, w, r)
    && forall a :: a in w.ptrs && a in g.heap && a !in open ==> IsLoaded(g, w, r, a)
  }

  /** Registering a new pointer on both sides keeps them in step: its object is open. */
  lemma NewPointerInStep(g: Graph, w: Writer, r: Reader, open: set<Address>, a: Address)
    requires g.Valid() && Tracks(g, w) && InStep(g, w, r, open) && a in g.heap && a !in w.ptrs
    ensures var (w1, id) := Register(w, a);
            InStep(g, w1, Allocated(r, Stripped(id)), open + {a})
  {
    RegisterTracks(g, w, a);
    var (w1, id) := Register(w, a);
    var r1 := Allocated(r, Stripped(id));
    NullUnregistered(g, w1);
    NewIdsMatch(g, w, r, a);
    hide Graph.Valid, Tracks, IdsMatch, VersionsMatch, IsLoaded, HasTop, WithTop, Stripped, Extends;
    forall b | b in w1.ptrs && b in g.heap && b !in open + {a} ensures IsLoaded(g, w1, r1, b) {
      assert b in w.ptrs && IsLoaded(g, w, r, b);
      StillLoaded(g, w, r, w1, r1, b);
    }
  }

  lemma NewIdsMatch(g: Graph, w: Writer, r: Reader, a: Address)
    requires IdsMatch(w, r) && VersionsMatch(g, w, r) && a != 0 && a !in w.ptrs
    requires w.next == |w.ptrs| + 1 < TOP_BIT
    ensures var (w1, id) := Register(w, a);
            var r1 := Allocated(r, Stripped(id));
            IdsMatch(w1, r1) && VersionsMatch(g, w1, r1)
  {
  }

  /** A loaded object stays loaded as both sides grow. */
  lemma StillLoaded(g: Graph, w: Writer, r: Reader, w1: Writer, r1: Reader, a: Address)
    requires a in g.heap && a in w.ptrs && IsLoaded(g, w, r, a)
    requires Extends(w.ptrs, w1.ptrs) && 0 !in w1.ptrs && r.objects <= r1.objects
    ensures IsLoaded(g, w1, r1, a)
  {
    RenamedStable(g.heap[a], w.ptrs, w1.ptrs);
  }

  lemma NullUnregistered(g: Graph, w: Writer)
    requires g.Valid() && Tracks(g, w)
    ensures 0 !in w.ptrs
  {
  }

  /** Once its contents have arrived the object is closed. */
  lemma FilledInStep(g: Graph, w: Writer, r: Reader, open: set<Address>, a: Address, v: Value)
    requires g.Valid() && Tracks(g, w) && InStep(g, w, r, open + {a}) && a in w.ptrs && a in g.heap
    requires v == Renamed(g.heap[a], w.ptrs) && Covered(g.heap[a], w.ptrs.Keys)
    requires 1 <= w.ptrs[a] <= |r.objects|
    ensures InStep(g, w, Filled(r, w.ptrs[a] - 1, v), open)
  {
    hide Graph.Valid, Renamed, Covered;
    var r1 := Filled(r, w.ptrs[a] - 1, v);
    forall b | b in w.ptrs && b in g.heap && b !in open ensures IsLoaded(g, w, r1, b) {
      if b != a {
        assert IsLoaded(g, w, r, b);
      }
    }
  }

  /** What was read is what was saved, pointers renamed, and both sides are in step again. */
  ghost predicate Agree(g: Graph, v: Value, s: Saved, l: Option<Loaded<Value>>, rest: seq<Word>, open: set<Address>) {
    && l.Some? && l.value.rest == rest
    && l.value.value == Renamed(v, s.writer.ptrs) && Covered(v, s.writer.ptrs.Keys)
    && InStep(g, s.writer, l.value.reader, open)
  }

  ghost predicate AllAgree(g: Graph, vs: seq<Value>, s: Saved, l: Option<Loaded<seq<Value>>>, rest: seq<Word>,
                           open: set<Address>)
  {
    && l.Some? && l.value.rest == rest
    && l.value.value == RenamedAll(vs, s.writer.ptrs) && AllCovered(vs, s.writer.ptrs.Keys)
    && InStep(g, s.writer, l.value.reader, open)
  }

  /** A value written and then read, with anything behind it in the stream. */
  ghost predicate ReadsBack(g: Graph, w: Writer, r: Reader, open: set<Address>, v: Value, t: Type, rest: seq<Word>)
    requires g.Valid() && Tracks(g, w) && g.HasType(v, t)
  {
    Agree(g, v, Save(g, w, v, t), Load(g.types, r, Save(g, w, v, t).words + rest, t), rest, open)
  }

  ghost predicate AllReadBack(g: Graph, w: Writer, r: Reader, open: set<Address>,
                              vs: seq<Value>, ts: seq<Type>, rest: seq<Word>)
    requires g.Valid() && Tracks(g, w) && g.HasTypes(vs, ts)
  {
    AllAgree(g, vs, SaveAll(g, w, vs, ts), LoadAll(g.types, r, SaveAll(g, w, vs, ts).words + rest, ts), rest, open)
  }

  lemma NumberReadsBack(g: Graph, w: Writer, r: Reader, open: set<Address>, v: Value, t: Type, rest: seq<Word>)
    requires g.Valid() && Tracks(g, w) && g.HasType(v, t) && InStep(g, w, r, open) && t.NumberType?
    ensures ReadsBack(g, w, r, open, v, t, rest)
  {
    hide Graph.Valid, Tracks, InStep;
    assert ([v.n] + rest)[1..] == rest;
  }

  lemma StructReadsBack(g: Graph, w: Writer, r: Reader, open: set<Address>, v: Value, t: Type, rest: seq<Word>)
    requires g.Valid() && Tracks(g, w) && g.HasType(v, t) && t.StructType?
    requires AllReadBack(g, w, r, open, v.fields, t.fieldTypes, rest)
    ensures ReadsBack(g, w, r, open, v, t, rest)
  {
    hide Graph.Valid, Tracks, InStep;
  }

  /** Marking a class as versioned on both sides keeps them in step. */
  lemma VersionsStayInStep(g: Graph, w: Writer, r: Reader, open: set<Address>, hash: Hash)
    requires InStep(g, w, r, open) && hash in g.versions
    ensures InStep(g, w.(versioned := w.versioned + {hash}), r.(versions := r.versions[hash := g.versions[hash]]), open)
  {
    var w1, r1 := w.(versioned := w.versioned + {hash}), r.(versions := r.versions[hash := g.versions[hash]]);
    NewVersionMatches(g, w, r, hash);
    hide VersionsMatch, IdsUpTo, IdsMatch;
    forall a | a in w1.ptrs && a in g.heap && a !in open ensures IsLoaded(g, w1, r1, a) {
      assert IsLoaded(g, w, r, a);
      SameTables(g, w, r, w1, r1, a);
    }
    hide IsLoaded;
  }

  lemma NewVersionMatches(g: Graph, w: Writer, r: Reader, hash: Hash)
    requires IdsMatch(w, r) && VersionsMatch(g, w, r) && hash in g.versions
    ensures var w1 := w.(versioned := w.versioned + {hash});
            var r1 := r.(versions := r.versions[hash := g.versions[hash]]);
            IdsMatch(w1, r1) && VersionsMatch(g, w1, r1)
  {
  }

  lemma SameTables(g: Graph, w: Writer, r: Reader, w1: Writer, r1: Reader, a: Address)
    requires a in g.heap && a in w.ptrs && IsLoaded(g, w, r, a) && w1.ptrs == w.ptrs && r1.objects == r.objects
    ensures IsLoaded(g, w1, r1, a)
  {
  }

  /** The reader asks for a version record exactly where the writer emitted one. */
  lemma VersionedReadsBack(g: Graph, w: Writer, r: Reader, open: set<Address>, v: Value, t: Type, rest: seq<Word>)
    requires g.Valid() && Tracks(g, w) && g.HasType(v, t) && InStep(g, w, r, open) && t.VersionedType?
    requires var w1 := w.(versioned := w.versioned + {t.hash});
             var r1 := r.(versions := r.versions[t.hash := g.versions[t.hash]]);
             ReadsBack(g, w1, r1, open, v.contents, t.layouts[v.version], rest)
    ensures ReadsBack(g, w, r, open, v, t, rest)
  {
    var w1 := w.(versioned := w.versioned + {t.hash});
    var r1 := r.(versions := r.versions[t.hash := g.versions[t.hash]]);
    VersionKnown(g, w, r, open, t.hash);
    SaveVersioned(g, w, v, t);
    hide Graph.Valid, Tracks, InStep, Agree, Save, Load;
    var s := Save(g, w1, v.contents, t.layouts[v.version]);
    var l := Load(g.types, r1, s.words + rest, t.layouts[v.version]);
    AgreeFacts(g, v.contents, s, l, rest, open);
    if t.hash in w.versioned {
      LoadKnownVersion(g.types, r, s.words + rest, t, v.version);
    } else {
      LoadNewVersion(g.types, r, s.words + rest, t, v.version);
      Assoc([v.version], s.words, rest);
    }
    VersionedAgrees(g, v, s, Save(g, w, v, t), l.value, rest, open);
  }

  lemma VersionKnown(g: Graph, w: Writer, r: Reader, open: set<Address>, hash: Hash)
    requires InStep(g, w, r, open) && hash in g.versions
    ensures hash in w.versioned <==> hash in r.versions
    ensures hash in w.versioned ==> r.versions[hash] == g.versions[hash]
  {
    hide IdsMatch, IsLoaded;
  }

  /** With its version in front, a value agrees if its contents do. */
  lemma VersionedAgrees(g: Graph, v: Value, s: Saved, s1: Saved, l: Loaded<Value>, rest: seq<Word>, open: set<Address>)
    requires v.Versioned? && Agree(g, v.contents, s, Some(l), rest, open) && s1.writer == s.writer
    ensures Agree(g, v, s1, Some(Loaded(l.reader, Versioned(v.version, l.value), l.rest)), rest, open)
  {
    hide InStep;
  }

  lemma SaveVersioned(g: Graph, w: Writer, v: Value, t: Type)
    requires g.Valid() && Tracks(g, w) && g.HasType(v, t) && t.VersionedType?
    ensures var w1 := w.(versioned := w.versioned + {t.hash});
            && Tracks(g, w1) && v.Versioned? && t.hash in g.versions && v.version == g.versions[t.hash] < |t.layouts|
            && g.HasType(v.contents, t.layouts[v.version])
            && var s := Save(g, w1, v.contents, t.layouts[v.version]);
               Save(g, w, v, t) == if t.hash in w.versioned then s else Saved(s.writer, [v.version] + s.words)
  {
    hide Graph.Valid;
  }

  lemma LoadKnownVersion(types: map<TypeName, Type>, r: Reader, input: seq<Word>, t: Type, version: Word)
    requires t.VersionedType? && t.hash in r.versions && r.versions[t.hash] == version < |t.layouts|
    requires Load(types, r.(versions := r.versions[t.hash := version]), input, t.layouts[version]).Some?
    ensures var l := Load(types, r.(versions := r.versions[t.hash := version]), input, t.layouts[version]).value;
            Load(types, r, input, t) == Some(Loaded(l.reader, Versioned(version, l.value), l.rest))
  {
  }

  lemma LoadNewVersion(types: map<TypeName, Type>, r: Reader, input: seq<Word>, t: Type, version: Word)
    requires t.VersionedType? && t.hash !in r.versions && version < |t.layouts|
    requires Load(types, r.(versions := r.versions[t.hash := version]), input, t.layouts[version]).Some?
    ensures var l := Load(types, r.(versions := r.versions[t.hash := version]), input, t.layouts[version]).value;
            Load(types, r, [version] + input, t) == Some(Loaded(l.reader, Versioned(version, l.value), l.rest))
  {
    assert ([version] + input)[1..] == input;
  }

  lemma OldPointerReadsBack(g: Graph, w: Writer, r: Reader, open: set<Address>, v: Value, t: Type, rest: seq<Word>)
    requires g.Valid() && Tracks(g, w) && g.HasType(v, t) && InStep(g, w, r, open) && t.SharedType?
    requires v.to == 0 || v.to in w.ptrs
    ensures ReadsBack(g, w, r, open, v, t, rest)
  {
    var id: Word := if v.to == 0 then 0 else w.ptrs[v.to];
    OldIdMatches(g, w, r, open, v.to);
    SaveOldPointer(g, w, v, t);
    hide Save, Load, Graph.Valid, Graph.HasType, InStep, Tracks, HasTop;
    LoadOldPointer(g.types, r, id, rest, t);
  }

  lemma OldIdMatches(g: Graph, w: Writer, r: Reader, open: set<Address>, a: Address)
    requires g.Valid() && Tracks(g, w) && InStep(g, w, r, open) && (a == 0 || a in w.ptrs)
    ensures 0 !in w.ptrs
    ensures var id: Word := if a == 0 then 0 else w.ptrs[a];
            !HasTop(id) && (a != 0 ==> id != 0 && id in r.ids && r.ids[id] == id)
  {
    NullUnregistered(g, w);
    if a != 0 {
      IdsAreSmall(g, w, a);
    }
    hide Graph.Valid, VersionsMatch, IsLoaded, Tracks;
  }

  lemma SaveOldPointer(g: Graph, w: Writer, v: Value, t: Type)
    requires g.Valid() && Tracks(g, w) && g.HasType(v, t) && t.SharedType? && (v.to == 0 || v.to in w.ptrs)
    ensures v.to == 0 || w.ptrs[v.to] != 0
    ensures Save(g, w, v, t) == Saved(w, [if v.to == 0 then 0 else w.ptrs[v.to]])
  {
    if v.to != 0 {
      IdsAreSmall(g, w, v.to);
    }
  }

  lemma LoadOldPointer(types: map<TypeName, Type>, r: Reader, id: Word, rest: seq<Word>, t: Type)
    requires t.SharedType? && !HasTop(id) && (id == 0 || id in r.ids)
    ensures Load(types, r, [id] + rest, t) == Some(Loaded(r, Pointer(if id == 0 then 0 else r.ids[id]), rest))
  {
    assert ([id] + rest)[1..] == rest;
  }

  lemma NewPointerReadsBack(g: Graph, w: Writer, r: Reader, open: set<Address>, v: Value, t: Type, rest: seq<Word>)
    requires g.Valid() && Tracks(g, w) && g.HasType(v, t) && InStep(g, w, r, open) && t.SharedType?
    requires v.to != 0 && v.to !in w.ptrs && Tracks(g, Register(w, v.to).0)
    requires var (w1, id) := Register(w, v.to);
             ReadsBack(g, w1, Allocated(r, Stripped(id)), open + {v.to}, g.heap[v.to], g.types[t.name], rest)
    ensures ReadsBack(g, w, r, open, v, t, rest)
  {
    TargetTyped(g, v, t);
    hide Save, Load, Agree, Graph.Valid, Graph.HasType, Tracks, InStep, Extends;
    hide Filled, Register, HasTop, Stripped, Allocated;
    RegisterTracks(g, w, v.to);
    var (w1, id) := Register(w, v.to);
    var r1 := Allocated(r, Stripped(id));
    NextAddress(g, w, r, open, v.to);
    var s := Save(g, w1, g.heap[v.to], g.types[t.name]);
    var l := Load(g.types, r1, s.words + rest, g.types[t.name]);
    AgreeFacts(g, g.heap[v.to], s, l, rest, open + {v.to});
    SaveNewPointer(g, w, v, t);
    LoadNewPointer(g.types, r, id, s.words + rest, t);
    Assoc([id], s.words, rest);
    KeptId(w1, s.writer, v.to);
    ClosedAgree(g, v, s, Save(g, w, v, t), l.value, rest, open);
  }

  lemma TargetTyped(g: Graph, v: Value, t: Type)
    requires g.Valid() && g.HasType(v, t) && t.SharedType? && v.to != 0
    ensures v.to in g.heap && t.name in g.types && g.HasType(g.heap[v.to], g.types[t.name])
  {
  }

  lemma NextAddress(g: Graph, w: Writer, r: Reader, open: set<Address>, a: Address)
    requires InStep(g, w, r, open) && Tracks(g, w) && a != 0 && a !in w.ptrs
    ensures a in Register(w, a).0.ptrs && Register(w, a).0.ptrs[a] == |r.objects| + 1
  {
  }

  lemma KeptId(w: Writer, w1: Writer, a: Address)
    requires Extends(w.ptrs, w1.ptrs) && a in w.ptrs
    ensures a in w1.ptrs && w1.ptrs[a] == w.ptrs[a]
  {
  }

  /** With its contents filled in, a new pointer agrees if its contents do. */
  lemma ClosedAgree(g: Graph, v: Value, s: Saved, s1: Saved, l: Loaded<Value>, rest: seq<Word>, open: set<Address>)
    requires g.Valid() && Tracks(g, s.writer) && s1.writer == s.writer
    requires v.Pointer? && v.to in s.writer.ptrs && v.to in g.heap
    requires Agree(g, g.heap[v.to], s, Some(l), rest, open + {v.to}) && 1 <= s.writer.ptrs[v.to] <= |l.reader.objects|
    ensures var id := s.writer.ptrs[v.to];
            Agree(g, v, s1, Some(Loaded(Filled(l.reader, id - 1, l.value), Pointer(id), l.rest)), rest, open)
  {
    hide InStep, Graph.Valid, Tracks, Filled;
    FilledInStep(g, s.writer, l.reader, open, v.to, l.value);
  }

  lemma SaveNewPointer(g: Graph, w: Writer, v: Value, t: Type)
    requires g.Valid() && Tracks(g, w) && g.HasType(v, t) && t.SharedType? && v.to != 0 && v.to !in w.ptrs
    requires Tracks(g, Register(w, v.to).0)
    ensures var (w1, id) := Register(w, v.to);
            var s := Save(g, w1, g.heap[v.to], g.types[t.name]);
            Save(g, w, v, t) == Saved(s.writer, [id] + s.words)
  {
    RegisterTracks(g, w, v.to);
    hide Tracks, Graph.HasType;
  }

  lemma LoadNewPointer(types: map<TypeName, Type>, r: Reader, id: Word, input: seq<Word>, t: Type)
    requires t.SharedType? && HasTop(id) && t.name in types
    requires Load(types, Allocated(r, Stripped(id)), input, types[t.name]).Some?
    ensures var l := Load(types, Allocated(r, Stripped(id)), input, types[t.name]).value;
            |r.objects| < |l.reader.objects| &&
            Load(types, r, [id] + input, t) ==
            Some(Loaded(Filled(l.reader, |r.objects|, l.value), Pointer(|r.objects| + 1), l.rest))
  {
    assert ([id] + input)[1..] == input;
  }

  /** Reading undoes writing, from any point at which the two are in step. */
  lemma {:induction false} SaveThenLoad(g: Graph, w: Writer, r: Reader, open: set<Address>,
                                        v: Value, t: Type, rest: seq<Word>)
    requires g.Valid() && Tracks(g, w) && g.HasType(v, t) && InStep(g, w, r, open)
    ensures ReadsBack(g, w, r, open, v, t, rest)
    decreases |g.heap.Keys - w.ptrs.Keys|, v, t
  {
    match t
    case NumberType => NumberReadsBack(g, w, r, open, v, t, rest);
    case StructType(ts) =>
      SaveAllThenLoadAll(g, w, r, open, v.fields, ts, rest);
      StructReadsBack(g, w, r, open, v, t, rest);
    case VersionedType(hash, layouts) =>
      VersionsStayInStep(g, w, r, open, hash);
      SaveThenLoad(g, w.(versioned := w.versioned + {hash}),
                   r.(versions := r.versions[hash := g.versions[hash]]), open, v.contents, layouts[v.version], rest);
      VersionedReadsBack(g, w, r, open, v, t, rest);
    case SharedType(name) =>
      RegisterTracks(g, w, v.to);
      if v.to == 0 || v.to in w.ptrs {
        OldPointerReadsBack(g, w, r, open, v, t, rest);
      } else {
        FewerLeft(g, w, v.to);
        NewPointerInStep(g, w, r, open, v.to);
        var (w1, id) := Register(w, v.to);
        SaveThenLoad(g, w1, Allocated(r, Stripped(id)), open + {v.to}, g.heap[v.to], g.types[name], rest);
        NewPointerReadsBack(g, w, r, open, v, t, rest);
      }
  }

  lemma OneMoreReadsBack(g: Graph, w: Writer, r: Reader, open: set<Address>, vs: seq<Value>, ts: seq<Type>,
                         init: Saved, last: Saved, mid: Reader, rest: seq<Word>)
    requires vs != [] && g.Valid() && Tracks(g, w) && g.HasTypes(vs, ts)
    requires init == SaveAll(g, w, vs[..|vs| - 1], ts[..|vs| - 1])
    requires last == Save(g, init.writer, vs[|vs| - 1], ts[|vs| - 1])
    requires AllReadBack(g, w, r, open, vs[..|vs| - 1], ts[..|vs| - 1], last.words + rest)
    requires mid == LoadAll(g.types, r, init.words + (last.words + rest), ts[..|vs| - 1]).value.reader
    requires ReadsBack(g, init.writer, mid, open, vs[|vs| - 1], ts[|vs| - 1], rest)
    ensures AllReadBack(g, w, r, open, vs, ts, rest)
  {
    hide Save, SaveAll, Load, LoadAll, Agree, AllAgree, Graph.Valid, Graph.HasType, Tracks, Extends;
    var l := LoadAll(g.types, r, init.words + (last.words + rest), ts[..|vs| - 1]);
    var l1 := Load(g.types, mid, last.words + rest, ts[|vs| - 1]);
    AllAgreeFacts(g, vs[..|vs| - 1], init, l, last.words + rest, open);
    AgreeFacts(g, vs[|vs| - 1], last, l1, rest, open);
    NullUnregistered(g, last.writer);
    LoadOneMore(g.types, r, init.words + (last.words + rest), ts);
    SaveOneMore(g, w, vs, ts);
    Assoc(init.words, last.words, rest);
    OneMoreAgrees(g, vs, init, last, SaveAll(g, w, vs, ts), l.value.value, l1.value, open);
  }

  lemma Assoc(a: seq<Word>, b: seq<Word>, c: seq<Word>)
    ensures a + b + c == a + (b + c)
  {
  }

  lemma AgreeFacts(g: Graph, v: Value, s: Saved, l: Option<Loaded<Value>>, rest: seq<Word>, open: set<Address>)
    requires Agree(g, v, s, l, rest, open)
    ensures l.Some? && l.value.rest == rest
  {
    hide InStep;
  }

  lemma AllAgreeFacts(g: Graph, vs: seq<Value>, s: Saved, l: Option<Loaded<seq<Value>>>, rest: seq<Word>,
                      open: set<Address>)
    requires AllAgree(g, vs, s, l, rest, open)
    ensures l.Some? && l.value.rest == rest
    ensures l.value.value == RenamedAll(vs, s.writer.ptrs) && AllCovered(vs, s.writer.ptrs.Keys)
  {
    hide InStep;
  }

  lemma OneMoreAgrees(g: Graph, vs: seq<Value>, init: Saved, last: Saved, all: Saved, before: seq<Value>,
                      l: Loaded<Value>, open: set<Address>)
    requires vs != [] && Extends(init.writer.ptrs, last.writer.ptrs) && 0 !in last.writer.ptrs
    requires before == RenamedAll(vs[..|vs| - 1], init.writer.ptrs)
    requires AllCovered(vs[..|vs| - 1], init.writer.ptrs.Keys)
    requires Agree(g, vs[|vs| - 1], last, Some(l), l.rest, open) && all.writer == last.writer
    ensures AllAgree(g, vs, all, Some(Loaded(l.reader, before + [l.value], l.rest)), l.rest, open)
  {
    hide InStep, Renamed, Covered;
    AllRenamedStable(vs[..|vs| - 1], init.writer.ptrs, last.writer.ptrs);
  }

  lemma SaveOneMore(g: Graph, w: Writer, vs: seq<Value>, ts: seq<Type>)
    requires vs != [] && g.Valid() && Tracks(g, w) && g.HasTypes(vs, ts)
    ensures var init := SaveAll(g, w, vs[..|vs| - 1], ts[..|vs| - 1]);
            var last := Save(g, init.writer, vs[|vs| - 1], ts[|vs| - 1]);
            SaveAll(g, w, vs, ts) == Saved(last.writer, init.words + last.words)
  {
  }

  lemma LoadOneMore(types: map<TypeName, Type>, r: Reader, input: seq<Word>, ts: seq<Type>)
    requires ts != [] && LoadAll(types, r, input, ts[..|ts| - 1]).Some?
    requires var init := LoadAll(types, r, input, ts[..|ts| - 1]).value;
             Load(types, init.reader, init.rest, ts[|ts| - 1]).Some?
    ensures var init := LoadAll(types, r, input, ts[..|ts| - 1]).value;
            var last := Load(types, init.reader, init.rest, ts[|ts| - 1]).value;
            LoadAll(types, r, input, ts) == Some(Loaded(last.reader, init.value + [last.value], last.rest))
  {
  }

  lemma {:induction false} SaveAllThenLoadAll(g: Graph, w: Writer, r: Reader, open: set<Address>,
                                              vs: seq<Value>, ts: seq<Type>, rest: seq<Word>)
    requires g.Valid() && Tracks(g, w) && g.HasTypes(vs, ts) && InStep(g, w, r, open)
    ensures AllReadBack(g, w, r, open, vs, ts, rest)
    decreases |g.heap.Keys - w.ptrs.Keys|, vs, ts
  {
    if vs == [] {
      assert SaveAll(g, w, vs, ts).words + rest == rest;
    } else {
      var n := |vs| - 1;
      var init := SaveAll(g, w, vs[..n], ts[..n]);
      var last := Save(g, init.writer, vs[n], ts[n]);
      SaveAllThenLoadAll(g, w, r, open, vs[..n], ts[..n], last.words + rest);
      var l := LoadAll(g.types, r, init.words + (last.words + rest), ts[..n]);
      SaveThenLoad(g, init.writer, l.value.reader, open, vs[n], ts[n], rest);
      OneMoreReadsBack(g, w, r, open, vs, ts, init, last, l.value.reader, rest);
    }
  }

  // ------------------------------------------------ whole archives

  lemma NewInStep(g: Graph)
    requires g.Valid()
    ensures Tracks(g, NEW_WRITER) && InStep(g, NEW_WRITER, NEW_READER, {})
  {
  }

  /** An archive holding any values over any object graph, cycles and shared objects
      included, reads back without error to its last word: the values and every object
      reached are the originals, with pointers renamed one to one. */
  lemma RoundTrip(g: Graph, vs: seq<Value>, ts: seq<Type>)
    requires g.Valid() && g.HasTypes(vs, ts)
    ensures var s := SaveAll(g, NEW_WRITER, vs, ts);
            var l := LoadAll(g.types, NEW_READER, s.words, ts);
            var ptrs := s.writer.ptrs;
            && l.Some? && l.value.rest == []
            && l.value.value == RenamedAll(vs, ptrs) && AllCovered(vs, ptrs.Keys)
            && |l.value.reader.objects| == |ptrs| && Distinct(ptrs)
            && forall a :: a in ptrs && a in g.heap ==> IsLoaded(g, s.writer, l.value.reader, a)
  {
    NewInStep(g);
    SaveAllThenLoadAll(g, NEW_WRITER, NEW_READER, {}, vs, ts, []);
    var s := SaveAll(g, NEW_WRITER, vs, ts);
    assert s.words + [] == s.words;
    hide SaveAll, LoadAll, Graph.Valid, Graph.HasTypes, IsLoaded, VersionsMatch, RenamedAll, AllCovered;
  }

  /** Renaming pointers one to one loses nothing: decoded values, and so decoded
      pointers, are equal exactly when the originals were; null stays null. */
  lemma {:induction false} RenamedIsOneToOne(u: Value, v: Value, ptrs: map<Address, Word>)
    requires Distinct(ptrs) && 0 !in ptrs && (forall a :: a in ptrs ==> ptrs[a] != 0)
    requires Covered(u, ptrs.Keys) && Covered(v, ptrs.Keys)
    ensures Renamed(u, ptrs) == Renamed(v, ptrs) <==> u == v
    ensures Renamed(u, ptrs) == Pointer(0) <==> u == Pointer(0)
  {
    match u
    case Number(n) =>
    case Struct(fields) =>
      if v.Struct? {
        RenamedAllIsOneToOne(fields, v.fields, ptrs);
      }
    case Versioned(version, contents) =>
      if v.Versioned? {
        RenamedIsOneToOne(contents, v.contents, ptrs);
      }
    case Pointer(to) =>
  }

  lemma {:induction false} RenamedAllIsOneToOne(us: seq<Value>, vs: seq<Value>, ptrs: map<Address, Word>)
    requires Distinct(ptrs) && 0 !in ptrs && (forall a :: a in ptrs ==> ptrs[a] != 0)
    requires AllCovered(us, ptrs.Keys) && AllCovered(vs, ptrs.Keys)
    ensures RenamedAll(us, ptrs) == RenamedAll(vs, ptrs) <==> us == vs
  {
    if us != [] && vs != [] {
      var m, n := |us| - 1, |vs| - 1;
      hide Renamed, Covered;
      RenamedAllIsOneToOne(us[..m], vs[..n], ptrs);
      RenamedIsOneToOne(us[m], vs[n], ptrs);
      SnocIsOneToOne(RenamedAll(us[..m], ptrs), Renamed(us[m], ptrs), RenamedAll(vs[..n], ptrs), Renamed(vs[n], ptrs));
      assert us == us[..m] + [us[m]] && vs == vs[..n] + [vs[n]];
      SnocIsOneToOne(us[..m], us[m], vs[..n], vs[n]);
    }
  }

  lemma SnocIsOneToOne<T>(a: seq<T>, x: T, b: seq<T>, y: T)
    ensures a + [x] == b + [y] <==> a == b && x == y
  {
    if a + [x] == b + [y] {
      assert (a + [x])[..|a|] == a && (b + [y])[..|b|] == b;
      assert (a + [x])[|a|] == x && (b + [y])[|b|] == y;
    }
  }

  lemma {:induction false} RenamedAllAt(vs: seq<Value>, ptrs: map<Address, Word>, i: nat)
    requires i < |vs|
    ensures |RenamedAll(vs, ptrs)| == |vs| && RenamedAll(vs, ptrs)[i] == Renamed(vs[i], ptrs)
    ensures AllCovered(vs, ptrs.Keys) ==> Covered(vs[i], ptrs.Keys)
  {
    var n := |vs| - 1;
    if i < n {
      RenamedAllAt(vs[..n], ptrs, i);
    } else if n > 0 {
      RenamedAllAt(vs[..n], ptrs, n - 1);
    }
  }

  /** In any archive, what is read at two places is equal exactly when what was
      written there was: one object stays one object, two stay two, null stays null. */
  lemma IdentityIsKept(g: Graph, vs: seq<Value>, ts: seq<Type>, i: nat, j: nat)
    requires g.Valid() && g.HasTypes(vs, ts) && i < |vs| && j < |vs|
    ensures var l := LoadAll(g.types, NEW_READER, SaveAll(g, NEW_WRITER, vs, ts).words, ts);
            && l.Some? && |l.value.value| == |vs|
            && (l.value.value[i] == l.value.value[j] <==> vs[i] == vs[j])
            && (l.value.value[i] == Pointer(0) <==> vs[i] == Pointer(0))
  {
    NewInStep(g);
    RoundTrip(g, vs, ts);
    var w := SaveAll(g, NEW_WRITER, vs, ts).writer;
    NullUnregistered(g, w);
    IdsAreIds(g, w);
    hide Graph.Valid, Graph.HasTypes, Tracks, SaveAll, LoadAll, IsLoaded, Distinct;
    RenamedPair(vs, w.ptrs, i, j);
  }

  lemma IdsAreIds(g: Graph, w: Writer)
    requires Tracks(g, w)
    ensures forall a :: a in w.ptrs ==> w.ptrs[a] != 0
  {
  }

  lemma RenamedPair(vs: seq<Value>, ptrs: map<Address, Word>, i: nat, j: nat)
    requires Distinct(ptrs) && 0 !in ptrs && (forall a :: a in ptrs ==> ptrs[a] != 0)
    requires AllCovered(vs, ptrs.Keys) && i < |vs| && j < |vs|
    ensures var read := RenamedAll(vs, ptrs);
            && |read| == |vs| && (read[i] == read[j] <==> vs[i] == vs[j])
            && (read[i] == Pointer(0) <==> vs[i] == Pointer(0))
  {
    hide RenamedAll, AllCovered, Renamed, Covered, Distinct;
    RenamedAllAt(vs, ptrs, i);
    RenamedAllAt(vs, ptrs, j);
    RenamedIsOneToOne(vs[i], vs[j], ptrs);
  }

  // ------------------------------------------------ one step of an archive

  /** What is saved for a pointer, by whether its id has the top bit. */
  lemma SavePointer(g: Graph, w: Writer, v: Value, t: Type)
    requires g.Valid() && Tracks(g, w) && g.HasType(v, t) && t.SharedType?
    ensures var (w1, id) := Register(w, v.to);
            if HasTop(id) then
              && v.to in g.heap && t.name in g.types && g.HasType(g.heap[v.to], g.types[t.name]) && Tracks(g, w1)
              && |g.heap.Keys - w1.ptrs.Keys| < |g.heap.Keys - w.ptrs.Keys|
              && var s := Save(g, w1, g.heap[v.to], g.types[t.name]);
                 Save(g, w, v, t) == Saved(s.writer, [id] + s.words)
            else
              Save(g, w, v, t) == Saved(w1, [id])
  {
    hide Graph.Valid, Tracks, Extends, Save;
    if v.to == 0 || v.to in w.ptrs {
      SaveOldPointer(g, w, v, t);
      RegisterTracks(g, w, v.to);
      hide Graph.HasType;
      RegisterOld(w, v.to);
    } else {
      TargetTyped(g, v, t);
      RegisterTracks(g, w, v.to);
      FewerLeft(g, w, v.to);
      SaveNewPointer(g, w, v, t);
    }
  }

  lemma RegisterOld(w: Writer, a: Address)
    requires a == 0 || a in w.ptrs
    ensures Register(w, a) == (w, if a == 0 then 0 else w.ptrs[a])
  {
  }

  lemma SaveNone(g: Graph, w: Writer)
    requires g.Valid() && Tracks(g, w)
    ensures g.HasTypes([], []) && SaveAll(g, w, [], []) == Saved(w, [])
  {
    hide Graph.Valid, Tracks;
  }

  /** What is saved for a number and for a class without versions. */
  lemma SaveCases(g: Graph, w: Writer, v: Value, t: Type)
    requires g.Valid() && Tracks(g, w) && g.HasType(v, t)
    ensures t.NumberType? ==> v.Number? && Save(g, w, v, t) == Saved(w, [v.n])
    ensures t.StructType? ==>
              g.HasTypes(v.fields, t.fieldTypes) && Save(g, w, v, t) == SaveAll(g, w, v.fields, t.fieldTypes)
  {
    hide Graph.Valid;
  }

  lemma SaveSnoc(g: Graph, w: Writer, vs: seq<Value>, ts: seq<Type>, i: nat)
    requires g.Valid() && Tracks(g, w) && g.HasTypes(vs, ts) && i < |ts|
    ensures g.HasTypes(vs[..i], ts[..i]) && g.HasTypes(vs[..i + 1], ts[..i + 1])
    ensures var init := SaveAll(g, w, vs[..i], ts[..i]);
            var last := Save(g, init.writer, vs[i], ts[i]);
            SaveAll(g, w, vs[..i + 1], ts[..i + 1]) == Saved(last.writer, init.words + last.words)
  {
    assert vs[..i + 1][..i] == vs[..i] && ts[..i + 1][..i] == ts[..i];
  }

  lemma LoadSnoc(types: map<TypeName, Type>, r: Reader, input: seq<Word>, ts: seq<Type>, i: nat)
    requires i < |ts|
    ensures LoadAll(types, r, input, ts[..i + 1]) ==
            match LoadAll(types, r, input, ts[..i])
            case None => None
            case Some(init) =>
              match Load(types, init.reader, init.rest, ts[i])
              case None => None
              case Some(last) => Some(Loaded(last.reader, init.value + [last.value], last.rest))
  {
    assert ts[..i + 1][..i] == ts[..i];
  }

  /** Once a field fails, the rest is not read. */
  lemma {:induction false} LoadFails(types: map<TypeName, Type>, r: Reader, input: seq<Word>, ts: seq<Type>, i: nat)
    requires i <= |ts| && LoadAll(types, r, input, ts[..i]).None?
    ensures LoadAll(types, r, input, ts).None?
  {
    if i < |ts| {
      assert ts[..|ts| - 1][..i] == ts[..i];
      LoadFails(types, r, input, ts[..|ts| - 1], i);
    } else {
      assert ts[..i] == ts;
    }
  }

  // ------------------------------------------------ written once

  /** The words a value takes without versions and without what its pointers lead to. */
  ghost function Tokens(v: Value): nat {
    match v
    case Number(_) => 1
    case Struct(fields) => TokensOfAll(fields)
    case Versioned(_, contents) => Tokens(contents)
    case Pointer(_) => 1
  }

  ghost function TokensOfAll(vs: seq<Value>): nat {
    if vs == [] then 0 else TokensOfAll(vs[..|vs| - 1]) + Tokens(vs[|vs| - 1])
  }

  ghost function TokensOfObjects(g: Graph, objects: set<Address>): nat
    requires objects <= g.heap.Keys
  {
    if objects == {} then 0 else
      var a :| a in objects;
      TokensOfObjects(g, objects - {a}) + Tokens(g.heap[a])
  }

  lemma {:induction false} OneMoreObject(g: Graph, objects: set<Address>, a: Address)
    requires objects + {a} <= g.heap.Keys && a !in objects
    ensures TokensOfObjects(g, objects + {a}) == TokensOfObjects(g, objects) + Tokens(g.heap[a])
    decreases objects
  {
    var more := objects + {a};
    var b :| b in more && TokensOfObjects(g, more) == TokensOfObjects(g, more - {b}) + Tokens(g.heap[b]);
    if b == a {
      assert more - {b} == objects;
    } else {
      OneMoreObject(g, objects - {b}, a);
      assert more - {b} == objects - {b} + {a};
      OneMoreObject(g, objects - {b}, b);
      assert objects - {b} + {b} == objects;
    }
  }

  /** What has been written for, weighed in words. */
  ghost function Weight(g: Graph, w: Writer): nat
    requires w.ptrs.Keys <= g.heap.Keys
  {
    TokensOfObjects(g, w.ptrs.Keys) + |w.versioned|
  }

  lemma {:induction false} SaveWeighs(g: Graph, w: Writer, v: Value, t: Type)
    requires g.Valid() && Tracks(g, w) && g.HasType(v, t)
    ensures var s := Save(g, w, v, t);
            |s.words| + Weight(g, w) == Tokens(v) + Weight(g, s.writer)
    decreases |g.heap.Keys - w.ptrs.Keys|, v, t
  {
    match t
    case NumberType =>
    case StructType(ts) =>
      hide Graph.Valid, Tracks, Weight;
      SaveAllWeighs(g, w, v.fields, ts);
    case VersionedType(hash, layouts) =>
      hide Graph.Valid, Tracks, Weight, Save, Graph.HasType;
      SaveVersioned(g, w, v, t);
      OneMoreVersion(g, w, hash);
      SaveWeighs(g, w.(versioned := w.versioned + {hash}), v.contents, layouts[v.version]);
    case SharedType(name) =>
      hide Graph.Valid, Tracks, Weight, Save, Graph.HasType;
      SavePointer(g, w, v, t);
      RegisterWeighs(g, w, v, t);
      var (w1, id) := Register(w, v.to);
      hide Register, HasTop;
      if HasTop(id) {
        SaveWeighs(g, w1, g.heap[v.to], g.types[name]);
      }
  }

  lemma OneMoreVersion(g: Graph, w: Writer, hash: Hash)
    requires w.ptrs.Keys <= g.heap.Keys
    ensures Weight(g, w.(versioned := w.versioned + {hash})) == Weight(g, w) + if hash in w.versioned then 0 else 1
  {
    hide TokensOfObjects;
    if hash in w.versioned {
      assert w.versioned + {hash} == w.versioned;
    }
  }

  lemma RegisterWeighs(g: Graph, w: Writer, v: Value, t: Type)
    requires g.Valid() && Tracks(g, w) && g.HasType(v, t) && t.SharedType?
    ensures var (w1, id) := Register(w, v.to);
            && w1.ptrs.Keys <= g.heap.Keys && (HasTop(id) ==> v.to in g.heap)
            && Weight(g, w1) == Weight(g, w) + if HasTop(id) then Tokens(g.heap[v.to]) else 0
  {
    RegisterTracks(g, w, v.to);
    hide Graph.Valid, TokensOfObjects;
    if v.to == 0 || v.to in w.ptrs {
      RegisterOld(w, v.to);
    } else {
      OneMoreObject(g, w.ptrs.Keys, v.to);
    }
  }

  lemma {:induction false} SaveAllWeighs(g: Graph, w: Writer, vs: seq<Value>, ts: seq<Type>)
    requires g.Valid() && Tracks(g, w) && g.HasTypes(vs, ts)
    ensures var s := SaveAll(g, w, vs, ts);
            |s.words| + Weight(g, w) == TokensOfAll(vs) + Weight(g, s.writer)
    decreases |g.heap.Keys - w.ptrs.Keys|, vs, ts
  {
    hide Graph.Valid, Tracks, Weight;
    if vs != [] {
      var n := |vs| - 1;
      SaveAllWeighs(g, w, vs[..n], ts[..n]);
      SaveWeighs(g, SaveAll(g, w, vs[..n], ts[..n]).writer, vs[n], ts[n]);
    }
  }

  /** An archive has one word for each number and pointer in what it was given and in each
      object that this leads to, however many pointers lead there, and one for the
      version of each class it met. */
  lemma WrittenOnce(g: Graph, vs: seq<Value>, ts: seq<Type>)
    requires g.Valid() && g.HasTypes(vs, ts)
    ensures var s := SaveAll(g, NEW_WRITER, vs, ts);
            |s.words| == TokensOfAll(vs) + TokensOfObjects(g, s.writer.ptrs.Keys) + |s.writer.versioned|
  {
    SaveAllWeighs(g, NEW_WRITER, vs, ts);
  }

  // ------------------------------------------------ the archives

  class OutputArchive {
    var itsSharedPointerMap: map<Address, Word>
    var itsCurrentPointerId: Word
    var itsVersionedTypes: set<Hash>
    var stream: seq<Word>

    constructor ()
      ensures Now() == NEW_WRITER && stream == []
    {
      itsSharedPointerMap, itsCurrentPointerId, itsVersionedTypes, stream := map[], 1, {}, [];
    }

    ghost function Now(): Writer
      reads this
    {
      Writer(itsSharedPointerMap, itsCurrentPointerId, itsVersionedTypes)
    }

    /** The id of an object, with the top bit set the first time. */
    method RegisterSharedPointer(addr: Address) returns (id: Word)
      modifies this`itsSharedPointerMap, this`itsCurrentPointerId
      ensures (Now(), id) == Register(old(Now()), addr)
    {
      if addr == 0 {
        return 0;
      }
      if addr !in itsSharedPointerMap {
        var ptrId := itsCurrentPointerId;
        itsCurrentPointerId := (itsCurrentPointerId + 1) % WORDS;
        itsSharedPointerMap := itsSharedPointerMap[addr := ptrId];
        return WithTop(ptrId);
      }
      return itsSharedPointerMap[addr];
    }

    /** Writes the version the first time the class is met. */
    method RegisterClassVersion(g: Graph, hash: Hash) returns (version: Word)
      requires hash in g.versions
      modifies this`itsVersionedTypes, this`stream
      ensures version == g.versions[hash]
      ensures Now() == old(Now()).(versioned := old(itsVersionedTypes) + {hash})
      ensures stream == old(stream) + (if hash in old(itsVersionedTypes) then [] else [version])
    {
      version := g.versions[hash];
      if hash !in itsVersionedTypes {
        stream := stream + [version];
      }
      itsVersionedTypes := itsVersionedTypes + {hash};
    }

    method Process(g: Graph, v: Value, t: Type)
      requires g.Valid() && Tracks(g, Now()) && g.HasType(v, t)
      modifies this
      ensures Now() == Save(g, old(Now()), v, t).writer
      ensures stream == old(stream) + Save(g, old(Now()), v, t).words
      decreases |g.heap.Keys - itsSharedPointerMap.Keys|, v, t, 1
    {
      hide Graph.Valid, Tracks, Extends, Save, SaveAll;
      SaveCases(g, Now(), v, t);
      match t
      case NumberType =>
        stream := stream + [v.n];
      case StructType(ts) =>
        ProcessFields(g, v.fields, ts);
      case VersionedType(hash, layouts) =>
        ProcessVersioned(g, v, t);
      case SharedType(name) =>
        ProcessPointer(g, v, t);
    }

    method ProcessVersioned(g: Graph, v: Value, t: Type)
      requires g.Valid() && Tracks(g, Now()) && g.HasType(v, t) && t.VersionedType?
      modifies this
      ensures Now() == Save(g, old(Now()), v, t).writer
      ensures stream == old(stream) + Save(g, old(Now()), v, t).words
      decreases |g.heap.Keys - itsSharedPointerMap.Keys|, v, t, 0
    {
      ghost var was, out := Now(), stream;
      SaveVersioned(g, was, v, t);
      hide Graph.Valid, Graph.HasType, Tracks, Extends, Save;
      var version := RegisterClassVersion(g, t.hash);
      ghost var s := Save(g, Now(), v.contents, t.layouts[version]);
      Process(g, v.contents, t.layouts[version]);
      Assoc(out, [version], s.words);
    }

    method ProcessFields(g: Graph, vs: seq<Value>, ts: seq<Type>)
      requires g.Valid() && Tracks(g, Now()) && g.HasTypes(vs, ts)
      modifies this
      ensures Now() == SaveAll(g, old(Now()), vs, ts).writer
      ensures stream == old(stream) + SaveAll(g, old(Now()), vs, ts).words
      decreases |g.heap.Keys - itsSharedPointerMap.Keys|, vs, ts
    {
      hide Graph.Valid, Graph.HasType, Tracks, Extends, Save, SaveAll;
      ghost var was, out := Now(), stream;
      SaveNone(g, was);
      for i := 0 to |ts|
        invariant g.HasTypes(vs[..i], ts[..i])
        invariant Now() == SaveAll(g, was, vs[..i], ts[..i]).writer
        invariant stream == out + SaveAll(g, was, vs[..i], ts[..i]).words
      {
        SaveSnoc(g, was, vs, ts, i);
        Process(g, vs[i], ts[i]);
      }
      assert vs[..|ts|] == vs && ts[..|ts|] == ts;
    }

    method ProcessPointer(g: Graph, v: Value, t: Type)
      requires g.Valid() && Tracks(g, Now()) && g.HasType(v, t) && t.SharedType?
      modifies this
      ensures Now() == Save(g, old(Now()), v, t).writer
      ensures stream == old(stream) + Save(g, old(Now()), v, t).words
      decreases |g.heap.Keys - itsSharedPointerMap.Keys|, v, t, 0
    {
      ghost var was, out := Now(), stream;
      SavePointer(g, was, v, t);
      hide Graph.Valid, Graph.HasType, Tracks, Extends, Save, HasTop, Register;
      var id := RegisterSharedPointer(v.to);
      stream := stream + [id];
      if HasTop(id) {
        ghost var s := Save(g, Now(), g.heap[v.to], g.types[t.name]);
        Process(g, g.heap[v.to], g.types[t.name]);
        Assoc(out, [id], s.words);
      }
    }
  }

  class InputArchive {
    var itsSharedPointerMap: map<Word, Address>
    var itsVersionedTypes: map<Hash, Word>
    var stream: seq<Word>
    var objects: seq<Value>

    constructor (input: seq<Word>)
      ensures Now() == NEW_READER && stream == input
    {
      itsSharedPointerMap, itsVersionedTypes, stream, objects := map[], map[], input, [];
    }

    ghost function Now(): Reader
      reads this
    {
      Reader(itsSharedPointerMap, itsVersionedTypes, objects)
    }

    /** The next word of the stream; running out is an exception. */
    method Next() returns (word: Option<Word>)
      modifies this`stream
      ensures word.Some? <==> old(stream) != []
      ensures if word.Some? then word.value == old(stream)[0] && stream == old(stream)[1..] else stream == old(stream)
    {
      if stream == [] {
        return None;
      }
      word := Some(stream[0]);
      stream := stream[1..];
    }

    /** The object registered under an id, unless nobody registered it. */
    method GetSharedPointer(id: Word) returns (ptr: Option<Address>)
      ensures ptr == if id == 0 then Some(0)
                     else if id in itsSharedPointerMap then Some(itsSharedPointerMap[id])
                     else None
    {
      if id == 0 {
        return Some(0);
      }
      if id !in itsSharedPointerMap {
        return None;
      }
      return Some(itsSharedPointerMap[id]);
    }

    /** The version of a class: remembered, or read the first time. */
    method LoadClassVersion(hash: Hash) returns (version: Option<Word>)
      modifies this`itsVersionedTypes, this`stream
      ensures version.None? <==> hash !in old(itsVersionedTypes) && old(stream) == []
      ensures version.Some? ==>
                && version.value ==
                   (if hash in old(itsVersionedTypes) then old(itsVersionedTypes)[hash] else old(stream)[0])
                && stream == (if hash in old(itsVersionedTypes) then old(stream) else old(stream)[1..])
                && itsVersionedTypes == old(itsVersionedTypes)[hash := version.value]
    {
      if hash in itsVersionedTypes {
        assert itsVersionedTypes[hash := itsVersionedTypes[hash]] == itsVersionedTypes;
        return Some(itsVersionedTypes[hash]);
      }
      version := Next();
      if version.Some? {
        itsVersionedTypes := itsVersionedTypes[hash := version.value];
      }
    }

    method Process(types: map<TypeName, Type>, t: Type) returns (v: Option<Value>)
      modifies this
      ensures var l := Load(types, old(Now()), old(stream), t);
              && (v.Some? <==> l.Some?)
              && (l.Some? ==> l.value == Loaded(Now(), v.value, stream))
      decreases |stream|, t
    {
      match t
      case NumberType =>
        var word := Next();
        v := if word.None? then None else Some(Number(word.value));
      case StructType(ts) =>
        ghost var was, input := Now(), stream;
        var fields := [];
        for i := 0 to |ts|
          invariant |stream| <= |input| && |objects| >= |was.objects|
          invariant LoadAll(types, was, input, ts[..i]) == Some(Loaded(Now(), fields, stream))
        {
          LoadSnoc(types, was, input, ts, i);
          var field := Process(types, ts[i]);
          if field.None? {
            LoadFails(types, was, input, ts, i + 1);
            return None;
          }
          fields := fields + [field.value];
        }
        assert ts[..|ts|] == ts;
        v := Some(Struct(fields));
      case VersionedType(hash, layouts) =>
        var version := LoadClassVersion(hash);
        if version.None? || version.value >= |layouts| {
          return None;
        }
        var contents := Process(types, layouts[version.value]);
        v := if contents.None? then None else Some(Versioned(version.value, contents.value));
      case SharedType(name) =>
        v := ProcessPointer(types, name, t);
    }

    method ProcessPointer(types: map<TypeName, Type>, name: TypeName, t: Type) returns (v: Option<Value>)
      requires t == SharedType(name)
      modifies this
      ensures var l := Load(types, old(Now()), old(stream), t);
              && (v.Some? <==> l.Some?)
              && (l.Some? ==> l.value == Loaded(Now(), v.value, stream))
      decreases |stream|, t, 0
    {
      var id := Next();
      if id.None? || (HasTop(id.value) && name !in types) {
        return None;
      }
      if HasTop(id.value) {
        var i := |objects|;
        objects := objects + [BLANK];
        itsSharedPointerMap := itsSharedPointerMap[Stripped(id.value) := i + 1];
        var contents := Process(types, types[name]);
        if contents.None? {
          return None;
        }
        objects := objects[i := contents.value];
        return Some(Pointer(i + 1));
      }
      var ptr := GetSharedPointer(id.value);
      v := if ptr.None? then None else Some(Pointer(ptr.value));
    }
  }
}
