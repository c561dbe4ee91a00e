/** The C++ half of the generated glue: how a C++ object standing for an owned
    Rust value tracks whether it holds a live value (its drop flag), what
    moving, destroying and borrowing it do, how the wrappers around Rust
    functions hand values over and report panics, and the plain values
    (`char`, `bool`, string literals) that carry no flag at all.

    Memory is modelled as the bytes of each object; what the program does that
    is visible from outside (a Rust destructor run, a Rust function called, the
    process aborting) is recorded in the event trace of a `Process`. */
module CppGlue {
  import opened RustGlue
  import opened Wrappers

  /** The message written to standard error before an uninitialised object
      brings the process down. */
  const UNINIT_PREFIX := "Use of uninitialized or moved Zngur Rust object with type "

  function UninitMessage(ty: string): (m: string)
    ensures |m| == |UNINIT_PREFIX| + |ty|
    ensures m[..|UNINIT_PREFIX|] == UNINIT_PREFIX && m[|UNINIT_PREFIX|..] == ty
  {
    UNINIT_PREFIX + ty
  }

  /** What the program does that can be seen from outside. `Aborted` is the
      endless `raise(SIGSEGV)`: nothing happens after it. */
  datatype Event =
    | Dropped(ty: string, data: seq<bv8>)
    | Called(rustFunction: string)
    | Aborted(message: string)

  class Process {
    var events: seq<Event>

    constructor()
      ensures events == []
    {
      events := [];
    }

    method Record(e: Event)
      modifies this
      ensures events == old(events) + [e]
    {
      events := events + [e];
    }

    /** `__zngur_internal_check_init`: an object without a live value aborts
        the process, with the type's name in the message. */
    method CheckInit(ty: string, initialised: bool) returns (ok: bool)
      modifies this
      ensures ok == initialised
      ensures initialised ==> events == old(events)
      ensures !initialised ==> events == old(events) + [Aborted(UninitMessage(ty))]
    {
      ok := initialised;
      if !initialised {
        Record(Aborted(UninitMessage(ty)));
      }
    }

    /** The destructor body: run the Rust `drop_in_place` on the bytes exactly
        when the flag says they hold a live value. */
    method DropIfFlagged(ty: string, data: seq<bv8>, flag: bool)
      modifies this
      ensures events == old(events) + (if flag then [Dropped(ty, data)] else [])
    {
      if flag {
        Record(Dropped(ty, data));
      }
    }
  }

  /** A C++ object holding an owned Rust value of type `ty` in `size` bytes,
      as emitted by the current generator. */
  class Owned {
    const ty: string
    const size: nat
    var data: seq<bv8>
    var dropFlag: bool

    /** The default constructor: storage, but no live value. */
    constructor(ty: string, size: nat)
      ensures this.ty == ty && this.size == size
      ensures |data| == size && !dropFlag
    {
      this.ty := ty;
      this.size := size;
      data := seq(size, _ => 0);
      dropFlag := false;
    }

    /** The move constructor: start without a value, then move-assign. */
    constructor Moved(other: Owned, p: Process)
      modifies other, p
      ensures ty == other.ty && size == other.size
      ensures data == old(other.data) && dropFlag == old(other.dropFlag)
      ensures !other.dropFlag && other.data == old(other.data)
      ensures p.events == old(p.events)
    {
      ty := other.ty;
      size := other.size;
      data := seq(other.size, _ => 0);
      dropFlag := false;
      new;
      MoveAssign(other, p);
    }

    /** The move assignment: moving an object onto itself does nothing;
        otherwise the value held here is dropped first, then the other
        object's value and flag are taken over and the other is left empty. */
    method MoveAssign(other: Owned, p: Process)
      requires other.ty == ty
      modifies this, other, p
      ensures other == this ==> unchanged(this) && p.events == old(p.events)
      ensures other != this ==>
                p.events == old(p.events) + (if old(dropFlag) then [Dropped(ty, old(data))] else [])
                && data == old(other.data) && dropFlag == old(other.dropFlag)
                && !other.dropFlag && other.data == old(other.data)
    {
      if other != this {
        p.DropIfFlagged(ty, data, dropFlag);
        dropFlag := other.dropFlag;
        data := other.data;
        other.dropFlag := false;
      }
    }

    /** The destructor. */
    method Destroy(p: Process)
      modifies p
      ensures p.events == old(p.events) + (if dropFlag then [Dropped(ty, data)] else [])
    {
      p.DropIfFlagged(ty, data, dropFlag);
    }

    method CheckInit(p: Process) returns (ok: bool)
      modifies p
      ensures ok == dropFlag
      ensures ok ==> p.events == old(p.events)
      ensures !ok ==> p.events == old(p.events) + [Aborted(UninitMessage(ty))]
    {
      ok := p.CheckInit(ty, dropFlag);
    }

    /** `__zngur_internal_assume_init`: Rust has written a value here. */
    method AssumeInit()
      modifies this`dropFlag
      ensures dropFlag
    {
      dropFlag := true;
    }

    /** `__zngur_internal_assume_deinit`: the value has been moved to Rust;
        the object must have held one. */
    method AssumeDeinit(p: Process) returns (ok: bool)
      modifies this`dropFlag, p
      ensures ok == old(dropFlag)
      ensures ok ==> !dropFlag && p.events == old(p.events)
      ensures !ok ==> !dropFlag && p.events == old(p.events) + [Aborted(UninitMessage(ty))]
    {
      ok := CheckInit(p);
      if ok {
        dropFlag := false;
      }
    }
  }

  /** `Ref<T>` and `RefMut<T>` built from an owned object: the address of its
      bytes. */
  datatype Borrow = Ref(target: Owned) | RefMut(target: Owned)

  /** Borrowing checks that the object holds a value; it never moves it. */
  method BorrowOf(t: Owned, mutable: bool, p: Process) returns (r: Option<Borrow>)
    modifies p
    ensures r.Some? <==> t.dropFlag
    ensures r.Some? ==> r.value.target == t && r.value.RefMut? == mutable
    ensures t.dropFlag ==> p.events == old(p.events)
    ensures !t.dropFlag ==> p.events == old(p.events) + [Aborted(UninitMessage(t.ty))]
  {
    var ok := t.CheckInit(p);
    if !ok {
      return None;
    }
    r := Some(if mutable then RefMut(t) else Ref(t));
  }

  /** `__zngur_internal_move_to_rust`: copy the bytes out, then give up the
      value. */
  method MoveToRust(t: Owned, p: Process) returns (bytes: seq<bv8>, ok: bool)
    modifies t`dropFlag, p
    ensures bytes == t.data
    ensures ok == old(t.dropFlag) && !t.dropFlag
    ensures ok ==> p.events == old(p.events)
    ensures !ok ==> p.events == old(p.events) + [Aborted(UninitMessage(t.ty))]
  {
    bytes := t.data;
    ok := t.AssumeDeinit(p);
  }

  /** `__zngur_internal_move_from_rust`: a fresh object that takes ownership
      of `size` bytes Rust handed over. */
  method MoveFromRust(ty: string, size: nat, src: seq<bv8>) returns (t: Owned)
    requires size <= |src|
    ensures fresh(t) && t.ty == ty && t.size == size
    ensures t.dropFlag && t.data == src[..size]
  {
    t := new Owned(ty, size);
    t.AssumeInit();
    t.data := src[..size];
  }

  /** How a wrapped call ends for its C++ caller. */
  datatype Outcome = Returned | Threw | Aborts

  /** Whether every object in `xs` holds a live value. */
  ghost predicate AllInitialised(xs: seq<Owned>)
    reads xs
  {
    forall k :: 0 <= k < |xs| ==> xs[k].dropFlag
  }

  /** The wrapper around a Rust function returning an owned value (such as
      `Str::to_owned` or `create_greeter_by_type`): the result object starts
      empty, every owned argument is handed over to Rust, the Rust function
      runs (writing the result unless it panics), and a detected panic is
      taken and rethrown as a C++ exception before the result is marked live,
      so the result is never dropped; otherwise it is marked live. */
  method CallReturningOwned(rustFunction: string, inputs: seq<Owned>, outTy: string, outSize: nat,
                            rust: PanicPayload, p: Process, panics: bool, result: seq<bv8>)
    returns (o: Owned, outcome: Outcome)
    requires forall i, j :: 0 <= i < j < |inputs| ==> inputs[i] != inputs[j]
    modifies inputs, rust, p
    ensures fresh(o) && o.ty == outTy && o.size == outSize
    ensures outcome == Aborts <==> !old(AllInitialised(inputs))
    ensures outcome == Aborts ==>
              !o.dropFlag && |p.events| == |old(p.events)| + 1
              && p.events[..|old(p.events)|] == old(p.events) && p.events[|old(p.events)|].Aborted?
    ensures outcome != Aborts ==>
              p.events == old(p.events) + [Called(rustFunction)]
              && forall k :: 0 <= k < |inputs| ==> !inputs[k].dropFlag
    ensures outcome == Threw <==> outcome != Aborts && (old(rust.payload) || panics)
    ensures outcome == Threw ==> !o.dropFlag && !rust.payload
    ensures outcome == Returned ==> o.dropFlag && o.data == result && rust.payload == old(rust.payload)
  {
    o := new Owned(outTy, outSize);
    var k := 0;
    while k < |inputs|
      invariant 0 <= k <= |inputs|
      invariant forall j :: 0 <= j < k ==> old(inputs[j].dropFlag) && !inputs[j].dropFlag
      invariant forall j :: k <= j < |inputs| ==> inputs[j].dropFlag == old(inputs[j].dropFlag)
      invariant p.events == old(p.events) && rust.payload == old(rust.payload)
      invariant !o.dropFlag && o.ty == outTy && o.size == outSize
    {
      var ok := inputs[k].AssumeDeinit(p);
      if !ok {
        outcome := Aborts;
        return;
      }
      k := k + 1;
    }
    p.Record(Called(rustFunction));
    rust.CatchUnwind(panics);
    if !panics {
      o.data := result;
    }
    var d := rust.DetectPanic();
    if d == 1 {
      rust.TakePanic();
      o.Destroy(p);
      outcome := Threw;
      return;
    }
    o.AssumeInit();
    outcome := Returned;
  }

  /** The wrapper for a constructor taking one owned argument (such as
      `Person::Person(String)`): the new object is marked live before the Rust
      function writes it, and the argument is given up only after the call,
      so an argument without a value aborts after Rust has run. No panic is
      looked for. */
  method ConstructFromOwned(rustFunction: string, ty: string, size: nat, arg: Owned,
                            p: Process, result: seq<bv8>) returns (o: Owned)
    modifies arg`dropFlag, p
    ensures fresh(o) && o.ty == ty && o.size == size
    ensures o.dropFlag && o.data == result && !arg.dropFlag
    ensures old(arg.dropFlag) ==> p.events == old(p.events) + [Called(rustFunction)]
    ensures !old(arg.dropFlag) ==>
              p.events == old(p.events) + [Called(rustFunction), Aborted(UninitMessage(arg.ty))]
  {
    o := new Owned(ty, size);
    o.AssumeInit();
    p.Record(Called(rustFunction));
    o.data := result;
    var ok := arg.AssumeDeinit(p);
  }

  /** A value type without a drop flag (`Char`, `Bool`, `Unit`): copying and
      moving both copy the bytes and leave the source as it was, and the
      destructor does nothing. */
  class Plain {
    const ty: string
    const size: nat
    var data: seq<bv8>

    constructor(ty: string, size: nat)
      ensures this.ty == ty && this.size == size && |data| == size
    {
      this.ty := ty;
      this.size := size;
      data := seq(size, _ => 0);
    }

    /** Copy and move assignment alike. */
    method Assign(other: Plain)
      modifies this`data
      ensures data == old(other.data) && other.data == old(other.data)
    {
      data := other.data;
    }
  }

  /** A Unicode scalar value: at most U+10FFFF and not a surrogate. */
  predicate IsScalarValue(c: bv32) {
    c <= 0x10FFFF && !(0xD800 <= c <= 0xDFFF)
  }

  /** `operator""_rs(char32_t)`: code points Rust's `char` cannot hold become
      U+FFFD. */
  function CharLiteral(c: bv32): (r: bv32)
    ensures IsScalarValue(r)
    ensures IsScalarValue(c) ==> r == c
    ensures !IsScalarValue(c) ==> r == 0xFFFD
  {
    if c > 0x10FFFF || (0xD800 <= c && c <= 0xDFFF) then 0xFFFD else c
  }

  /** Every literal is a character Rust (and Dafny) can hold. */
  function CharLiteralValue(c: bv32): (ch: char)
    ensures ch as int == CharLiteral(c) as int
  {
    (CharLiteral(c) as int) as char
  }

  /** `Char(char32_t)`: the four bytes of the code point, least significant
      first, as on every target the generator supports. */
  function CharBytes(c: bv32): (b: seq<bv8>)
    ensures |b| == 4
  {
    [(c & 0xFF) as bv8, ((c >> 8) & 0xFF) as bv8, ((c >> 16) & 0xFF) as bv8, (c >> 24) as bv8]
  }

  /** `operator char32_t`: the code point read back from the four bytes. */
  function CharCode(b: seq<bv8>): bv32
    requires |b| == 4
  {
    (b[0] as bv32) | ((b[1] as bv32) << 8) | ((b[2] as bv32) << 16) | ((b[3] as bv32) << 24)
  }

  lemma CharRoundTrip(c: bv32)
    ensures CharCode(CharBytes(c)) == c
  {
  }

  /** `Bool(bool)`: the single byte is 1 or 0. */
  function BoolByte(b: bool): bv8 {
    if b then 1 else 0
  }

  /** `operator bool`: any non-zero byte reads as true. */
  function ByteBool(x: bv8): bool {
    x != 0
  }

  lemma BoolRoundTrip(b: bool)
    ensures ByteBool(BoolByte(b)) == b
  {
  }

  /** Reading back a byte that was stored normalises it to 0 or 1. */
  lemma BoolByteNormalises(x: bv8)
    ensures BoolByte(ByteBool(x)) == (if x == 0 then 0 else 1)
  {
  }

  const WORD: nat := 8

  /** `Ref<Str>`, a fat pointer: the address of the bytes, then their count. */
  datatype StrRef = StrRef(ptr: nat, len: nat)

  /** `operator""_rs(const char*, size_t)`. */
  function StrLiteral(input: nat, len: nat): (r: StrRef)
    ensures r.ptr == input && r.len == len
  {
    StrRef(input, len)
  }

  /** The two words a `Ref<Str>` stores, in order. */
  function StrRefWords(r: StrRef): (w: seq<nat>)
    ensures |w| * WORD == SizeOf(RefStr)
  {
    [r.ptr, r.len]
  }

  /** The string a `Ref<Str>` designates in `memory`. */
  function Deref(memory: seq<bv8>, r: StrRef): seq<bv8>
    requires r.ptr + r.len <= |memory|
  {
    memory[r.ptr..r.ptr + r.len]
  }

  /** A literal placed in memory reads back through the reference made from
      its address and length. */
  lemma StrLiteralReadsBack(memory: seq<bv8>, at: nat, text: seq<bv8>)
    requires at + |text| <= |memory| && memory[at..at + |text|] == text
    ensures Deref(memory, StrLiteral(at, |text|)) == text
  {
  }

  /** The types whose sizes the generated glue states. */
  datatype GlueType =
    | String | Person | Robot | BoxDynGreeter | RefStr
    | Char | Bool | CharPrinter | Unit | Reader | RefFlags

  /** `__zngur_internal_size_of`, in bytes. */
  function SizeOf(t: GlueType): nat {
    match t
    case String => 24
    case Person => 24
    case Robot => 4
    case BoxDynGreeter => 16
    case RefStr => 16
    case Char => 4
    case Bool => 1
    case CharPrinter => 0
    case Unit => 0
    case Reader => 0
    case RefFlags => 8
  }

  /** A reference to a sized type is one word; a reference to `str` or a box
      of a trait object is two; a `Char` holds exactly its code point's bytes. */
  lemma PointerSizes()
    ensures SizeOf(RefFlags) == WORD
    ensures SizeOf(RefStr) == 2 * WORD && SizeOf(BoxDynGreeter) == 2 * WORD
    ensures SizeOf(Char) == |CharBytes(0)|
  {
  }

  /** An owned object as emitted by the older generator (the `osmium`
      example): its move constructor copies first and checks after, giving up
      the value takes no check, and taking the address checks instead. */
  class LegacyOwned {
    const ty: string
    const size: nat
    var data: seq<bv8>
    var dropFlag: bool

    constructor(ty: string, size: nat)
      ensures this.ty == ty && this.size == size
      ensures |data| == size && !dropFlag
    {
      this.ty := ty;
      this.size := size;
      data := seq(size, _ => 0);
      dropFlag := false;
    }

    /** The move constructor: take the bytes, claim a live value, then check
        the source and leave it empty. */
    constructor Moved(other: LegacyOwned, p: Process)
      modifies other`dropFlag, p
      ensures ty == other.ty && size == other.size
      ensures data == other.data && dropFlag
      ensures old(other.dropFlag) ==> !other.dropFlag && p.events == old(p.events)
      ensures !old(other.dropFlag) ==> p.events == old(p.events) + [Aborted(UninitMessage(other.ty))]
    {
      ty := other.ty;
      size := other.size;
      data := other.data;
      dropFlag := true;
      new;
      var ok := p.CheckInit(other.ty, other.dropFlag);
      if ok {
        other.dropFlag := false;
      }
    }

    method Destroy(p: Process)
      modifies p
      ensures p.events == old(p.events) + (if dropFlag then [Dropped(ty, data)] else [])
    {
      p.DropIfFlagged(ty, data, dropFlag);
    }

    method AssumeInit()
      modifies this`dropFlag
      ensures dropFlag
    {
      dropFlag := true;
    }

    /** Giving up the value clears the flag without looking at it. */
    method AssumeDeinit()
      modifies this`dropFlag
      ensures !dropFlag
    {
      dropFlag := false;
    }

    /** `__zngur_internal_data_ptr`: the address of the bytes, only for an
        object holding a value. */
    method DataPtr(p: Process) returns (ok: bool)
      modifies p
      ensures ok == dropFlag
      ensures ok ==> p.events == old(p.events)
      ensures !ok ==> p.events == old(p.events) + [Aborted(UninitMessage(ty))]
    {
      ok := p.CheckInit(ty, dropFlag);
    }
  }

  /** `Flags::bits(Ref<Flags>)`: the reference is made from the object's
      address (checked), the `uint8_t` result needs no flag, the Rust function
      runs, and the reference given up afterwards leaves the object itself
      untouched. */
  method FlagsBits(flags: LegacyOwned, p: Process, rustResult: bv8) returns (o: bv8, ok: bool)
    modifies p
    ensures ok == flags.dropFlag
    ensures ok ==> o == rustResult && p.events == old(p.events) + [Called("Flags::bits")]
    ensures !ok ==> p.events == old(p.events) + [Aborted(UninitMessage(flags.ty))]
  {
    o := 0;
    ok := flags.DataPtr(p);
    if !ok {
      return;
    }
    p.Record(Called("Flags::bits"));
    o := rustResult;
  }

  /** An owned object's state as a value, for the older move assignment. */
  datatype Slot = Slot(data: seq<bv8>, dropFlag: bool)

  datatype Assignment = Assigned(target: Slot, source: Slot) | AbortsOnSource | Exhausted

  /** The older generator's move assignment, `*this = Reader(std::move(other))`:
      the move constructor builds a temporary from the source, and assigning
      that temporary is this same operator again, so each level starts
      another. `depth` bounds how many levels are followed. */
  function LegacyMoveAssign(target: Slot, source: Slot, depth: nat): Assignment
    decreases depth
  {
    if !source.dropFlag then AbortsOnSource
    else if depth == 0 then Exhausted
    else LegacyMoveAssign(target, Slot(source.data, true), depth - 1)
  }

  /** However deep it is followed, the older move assignment never assigns:
      it aborts on an empty source and otherwise recurses without end. */
  lemma {:induction false} LegacyMoveAssignNeverAssigns(target: Slot, source: Slot, depth: nat)
    ensures !LegacyMoveAssign(target, source, depth).Assigned?
    ensures source.dropFlag ==> LegacyMoveAssign(target, source, depth) == Exhausted
    ensures !source.dropFlag ==> LegacyMoveAssign(target, source, depth) == AbortsOnSource
    decreases depth
  {
    if source.dropFlag && depth > 0 {
      LegacyMoveAssignNeverAssigns(target, Slot(source.data, true), depth - 1);
    }
  }
}
