/** The IDL-driven Borsh codec: encoder and decoder by recursion over IDL types, through nested structs.

    The library's primitive codecs are modelled by their wire format: little-endian integers, one byte
    for a boolean, a u32 length before the UTF-8 bytes of a string, 32 bytes for an address. Texts and
    addresses are represented by those bytes. */
module IdlCodec {
  import opened Results

  type byte = b: int | 0 <= b < 256

  type Name = nat

  datatype IdlType =
    | Unsigned(width: nat) | Signed(width: nat) | Bool | Str | Pubkey
    | Array(elem: IdlType, len: nat) | Defined(name: Name)

  datatype Field = Field(name: Name, ty: IdlType)

  datatype Body = Struct(fields: seq<Field>) | Enum(variants: seq<Name>)

  datatype TypeDef = TypeDef(name: Name, body: Body)

  datatype Instruction = Instruction(name: Name, discriminator: seq<byte>, args: seq<Field>)

  datatype AccountDef = AccountDef(name: Name, discriminator: seq<byte>)

  datatype Idl = Idl(instructions: seq<Instruction>, accounts: seq<AccountDef>, types: seq<TypeDef>)

  /** A dynamic value; a struct is an object with a value for each field name. */
  datatype Value = Num(n: int) | Flag(b: bool) | Text(utf8: seq<byte>) | Address(key: seq<byte>)
                 | Bytes(bytes: seq<byte>) | Object(fields: map<Name, Value>)

  datatype CodecError = UnknownType(name: Name) | UnknownInstruction(name: Name) | UnknownAccount(name: Name)
                      | Unsupported | BadValue | NotEnoughBytes | DiscriminatorMismatch | NotAStruct

  // ---------------------------------------------------------------- lookups

  function FindType(types: seq<TypeDef>, name: Name): Option<Body> {
    if types == [] then None else if types[0].name == name then Some(types[0].body) else FindType(types[1..], name)
  }

  function FindInstruction(instructions: seq<Instruction>, name: Name): Option<Instruction> {
    if instructions == [] then None
    else if instructions[0].name == name then Some(instructions[0])
    else FindInstruction(instructions[1..], name)
  }

  function FindAccount(accounts: seq<AccountDef>, name: Name): Option<AccountDef> {
    if accounts == [] then None
    else if accounts[0].name == name then Some(accounts[0])
    else FindAccount(accounts[1..], name)
  }

  // ---------------------------------------------------------------- acyclic definitions

  /** The recursion depth left in a type, given ranks of the defined types. */
  function Rank(rank: map<Name, nat>, ty: IdlType): nat {
    if ty.Defined? && ty.name in rank then rank[ty.name] + 1 else 0
  }

  /** Every struct ranks above the defined types its fields mention. A ranking only bounds the recursion
      and is never computed with; module IdlRanking says when there is one. */
  ghost predicate Ranked(idl: Idl, rank: map<Name, nat>) {
    forall name :: FindType(idl.types, name).Some? && FindType(idl.types, name).value.Struct? ==>
      name in rank && FieldsBelow(rank, FindType(idl.types, name).value.fields, rank[name] + 1)
  }

  ghost predicate FieldsBelow(rank: map<Name, nat>, fields: seq<Field>, bound: nat) {
    forall i :: 0 <= i < |fields| ==> Rank(rank, fields[i].ty) < bound
  }

  // ---------------------------------------------------------------- little-endian integers

  function Power(k: nat): nat {
    if k == 0 then 1 else 256 * Power(k - 1)
  }

  function Le(n: nat, k: nat): (s: seq<byte>)
    ensures |s| == k
  {
    if k == 0 then [] else [n % 256] + Le(n / 256, k - 1)
  }

  function FromLe(s: seq<byte>): nat {
    if s == [] then 0 else s[0] + 256 * FromLe(s[1..])
  }

  lemma {:induction false} FromLeOfLe(n: nat, k: nat)
    requires n < Power(k)
    ensures FromLe(Le(n, k)) == n
  {
    if k > 0 {
      FromLeOfLe(n / 256, k - 1);
      assert Le(n, k)[1..] == Le(n / 256, k - 1);
    }
  }

  lemma {:induction false} FromLeBound(s: seq<byte>)
    ensures FromLe(s) < Power(|s|)
  {
    if s != [] {
      FromLeBound(s[1..]);
    }
  }

  predicate FitsUnsigned(n: int, k: nat) {
    0 <= n < Power(k)
  }

  predicate FitsSigned(n: int, k: nat) {
    0 - Power(k) <= 2 * n < Power(k)
  }

  /** Two's complement. */
  function ToUnsigned(n: int, k: nat): nat
    requires FitsSigned(n, k)
  {
    if n < 0 then n + Power(k) else n
  }

  function ToSigned(n: nat, k: nat): int {
    if 2 * n >= Power(k) then n - Power(k) else n
  }

  // ---------------------------------------------------------------- encoder

  /** Pads with zeros or truncates to the given length. */
  function FixSize(s: seq<byte>, len: nat): (r: seq<byte>)
    ensures |r| == len
  {
    if |s| >= len then s[..len] else s + seq(len - |s|, _ => 0)
  }

  function Encode(idl: Idl, ghost rank: map<Name, nat>, ty: IdlType, v: Value): Result<seq<byte>, CodecError>
    requires Ranked(idl, rank)
    decreases Rank(rank, ty), 1, 0
  {
    match ty
    case Unsigned(k) => if v.Num? && FitsUnsigned(v.n, k) then Success(Le(v.n, k)) else Failure(BadValue)
    case Signed(k) => if v.Num? && FitsSigned(v.n, k) then Success(Le(ToUnsigned(v.n, k), k)) else Failure(BadValue)
    case Bool => if v.Flag? then Success([if v.b then 1 else 0]) else Failure(BadValue)
    case Str => if v.Text? && FitsUnsigned(|v.utf8|, 4) then Success(Le(|v.utf8|, 4) + v.utf8) else Failure(BadValue)
    case Pubkey => if v.Address? && |v.key| == 32 then Success(v.key) else Failure(BadValue)
    case Array(elem, len) =>
      if elem != Unsigned(1) then Failure(Unsupported)
      else if v.Bytes? then Success(FixSize(v.bytes, len)) else Failure(BadValue)
    case Defined(name) =>
      match FindType(idl.types, name)
      case None => Failure(UnknownType(name))
      // a unit-variant enum is its index as one byte; the index is not compared with the variants
      case Some(Enum(_)) => if v.Num? && FitsUnsigned(v.n, 1) then Success(Le(v.n, 1)) else Failure(BadValue)
      case Some(Struct(fields)) =>
        if v.Object? then EncodeFields(idl, rank, fields, v.fields, Rank(rank, ty)) else Failure(BadValue)
  }

  function EncodeFields(idl: Idl, ghost rank: map<Name, nat>, fields: seq<Field>, record: map<Name, Value>, ghost bound: nat)
    : Result<seq<byte>, CodecError>
    requires Ranked(idl, rank) && FieldsBelow(rank, fields, bound)
    decreases bound, 0, |fields|
  {
    if fields == [] then Success([])
    else
      :- Need(fields[0].name in record, BadValue);
      assert Rank(rank, fields[0].ty) < bound;
      var first :- Encode(idl, rank, fields[0].ty, record[fields[0].name]);
      var rest :- EncodeFields(idl, rank, fields[1..], record, bound);
      Success(first + rest)
  }

  // ---------------------------------------------------------------- decoder

  type Decoded<T> = Result<(T, seq<byte>), CodecError>

  function Take(s: seq<byte>, n: nat): Decoded<seq<byte>> {
    if |s| < n then Failure(NotEnoughBytes) else Success((s[..n], s[n..]))
  }

  function Decode(idl: Idl, ghost rank: map<Name, nat>, ty: IdlType, s: seq<byte>): Decoded<Value>
    requires Ranked(idl, rank)
    decreases Rank(rank, ty), 1, 0
  {
    match ty
    case Unsigned(k) => var t :- Take(s, k); Success((Num(FromLe(t.0)), t.1))
    case Signed(k) => var t :- Take(s, k); Success((Num(ToSigned(FromLe(t.0), k)), t.1))
    case Bool => var t :- Take(s, 1); Success((Flag(t.0 == [1]), t.1))
    case Str =>
      var prefix :- Take(s, 4);
      var t :- Take(prefix.1, FromLe(prefix.0));
      Success((Text(t.0), t.1))
    case Pubkey => var t :- Take(s, 32); Success((Address(t.0), t.1))
    case Array(elem, len) =>
      if elem != Unsigned(1) then Failure(Unsupported)
      else var t :- Take(s, len); Success((Bytes(t.0), t.1))
    case Defined(name) =>
      match FindType(idl.types, name)
      case None => Failure(UnknownType(name))
      case Some(Enum(_)) => var t :- Take(s, 1); Success((Num(FromLe(t.0)), t.1))
      case Some(Struct(fields)) =>
        var t :- DecodeFields(idl, rank, fields, s, Rank(rank, ty));
        Success((Object(t.0), t.1))
  }

  function DecodeFields(idl: Idl, ghost rank: map<Name, nat>, fields: seq<Field>, s: seq<byte>, ghost bound: nat)
    : Decoded<map<Name, Value>>
    requires Ranked(idl, rank) && FieldsBelow(rank, fields, bound)
    decreases bound, 0, |fields|
  {
    if fields == [] then Success((map[], s))
    else
      assert Rank(rank, fields[0].ty) < bound;
      var first :- Decode(idl, rank, fields[0].ty, s);
      var rest :- DecodeFields(idl, rank, fields[1..], first.1, bound);
      Success((map[fields[0].name := first.0] + rest.0, rest.1))
  }

  // ---------------------------------------------------------------- well-typed values

  function Names(fields: seq<Field>): set<Name> {
    set i | 0 <= i < |fields| :: fields[i].name
  }

  /** Well-typed values. The widths of an IDL are 1, 2, 4 and 8; nothing below depends on that. */
  ghost predicate Typed(idl: Idl, rank: map<Name, nat>, ty: IdlType, v: Value)
    requires Ranked(idl, rank)
    decreases Rank(rank, ty), 1, 0
  {
    match ty
    case Unsigned(k) => v.Num? && FitsUnsigned(v.n, k)
    case Signed(k) => v.Num? && FitsSigned(v.n, k)
    case Bool => v.Flag?
    case Str => v.Text? && FitsUnsigned(|v.utf8|, 4)
    case Pubkey => v.Address? && |v.key| == 32
    case Array(elem, len) => elem == Unsigned(1) && v.Bytes? && |v.bytes| == len
    case Defined(name) =>
      match FindType(idl.types, name)
      case None => false
      case Some(Enum(_)) => v.Num? && FitsUnsigned(v.n, 1)
      case Some(Struct(fields)) =>
        v.Object? && v.fields.Keys == Names(fields) && TypedFields(idl, rank, fields, v.fields, Rank(rank, ty))
  }

  ghost predicate TypedFields(idl: Idl, rank: map<Name, nat>, fields: seq<Field>, record: map<Name, Value>, bound: nat)
    requires Ranked(idl, rank) && FieldsBelow(rank, fields, bound)
    decreases bound, 0, |fields|
  {
    fields == [] ||
    (&& Rank(rank, fields[0].ty) < bound
     && fields[0].name in record && Typed(idl, rank, fields[0].ty, record[fields[0].name])
     && TypedFields(idl, rank, fields[1..], record, bound))
  }

  // ---------------------------------------------------------------- round trips

  lemma TakePrefix(a: seq<byte>, rest: seq<byte>)
    ensures Take(a + rest, |a|) == Success((a, rest))
  {
    assert (a + rest)[..|a|] == a && (a + rest)[|a|..] == rest;
  }

  lemma {:induction false} StringRoundTrip(idl: Idl, rank: map<Name, nat>, utf8: seq<byte>, suffix: seq<byte>)
    requires Ranked(idl, rank) && FitsUnsigned(|utf8|, 4)
    ensures Decode(idl, rank, Str, Le(|utf8|, 4) + utf8 + suffix) == Success((Text(utf8), suffix))
  {
    var prefix := Le(|utf8|, 4);
    assert prefix + utf8 + suffix == prefix + (utf8 + suffix);
    TakePrefix(prefix, utf8 + suffix);
    FromLeOfLe(|utf8|, 4);
    TakePrefix(utf8, suffix);
  }

  /** Types without a definition behind them. */
  lemma {:induction false} PlainRoundTrip(idl: Idl, rank: map<Name, nat>, ty: IdlType, v: Value, suffix: seq<byte>)
    requires Ranked(idl, rank) && !ty.Defined? && Typed(idl, rank, ty, v)
    ensures var e := Encode(idl, rank, ty, v);
            e.Success? && Decode(idl, rank, ty, e.value + suffix) == Success((v, suffix))
  {
    var bytes := Encode(idl, rank, ty, v).value;
    match ty {
      case Str => StringRoundTrip(idl, rank, v.utf8, suffix);
      case Unsigned(k) => FromLeOfLe(v.n, k); TakePrefix(bytes, suffix);
      case Signed(k) =>
        FromLeOfLe(ToUnsigned(v.n, k), k);
        TakePrefix(bytes, suffix);
      case Bool =>
        TakePrefix(bytes, suffix);
        assert bytes == [1] <==> v.b;
      case Array(_, len) =>
        assert FixSize(v.bytes, len) == v.bytes;
        TakePrefix(bytes, suffix);
      case Pubkey => TakePrefix(bytes, suffix);
    }
  }

  /** Decoding the encoding of a well-typed value followed by anything gives back the value and leaves
      the rest untouched, for every type of an acyclic IDL. */
  lemma {:induction false} RoundTrip(idl: Idl, rank: map<Name, nat>, ty: IdlType, v: Value, suffix: seq<byte>)
    requires Ranked(idl, rank) && Typed(idl, rank, ty, v)
    ensures var e := Encode(idl, rank, ty, v);
            e.Success? && Decode(idl, rank, ty, e.value + suffix) == Success((v, suffix))
    decreases Rank(rank, ty), 1, 0
  {
    if !ty.Defined? {
      PlainRoundTrip(idl, rank, ty, v, suffix);
    } else {
      match FindType(idl.types, ty.name)
      case Some(Enum(_)) =>
        assert Power(1) == 256;
        FromLeOfLe(v.n, 1);
        TakePrefix(Le(v.n, 1), suffix);
      case Some(Struct(fields)) =>
        FieldsRoundTrip(idl, rank, fields, v.fields, suffix, Rank(rank, ty));
        assert Restrict(v.fields, Names(fields)) == v.fields;
    }
  }

  function Restrict(record: map<Name, Value>, names: set<Name>): map<Name, Value> {
    map k | k in record && k in names :: record[k]
  }

  lemma RestrictFirst(record: map<Name, Value>, fields: seq<Field>)
    requires fields != [] && fields[0].name in record
    ensures map[fields[0].name := record[fields[0].name]] + Restrict(record, Names(fields[1..])) == Restrict(record, Names(fields))
  {
  }

  lemma {:induction false} FieldsRoundTrip(idl: Idl, rank: map<Name, nat>, fields: seq<Field>, record: map<Name, Value>,
                                           suffix: seq<byte>, bound: nat)
    requires Ranked(idl, rank) && FieldsBelow(rank, fields, bound) && TypedFields(idl, rank, fields, record, bound)
    ensures var e := EncodeFields(idl, rank, fields, record, bound);
            e.Success? && DecodeFields(idl, rank, fields, e.value + suffix, bound) == Success((Restrict(record, Names(fields)), suffix))
    decreases bound, 0, |fields|
  {
    if fields == [] {
      assert [] + suffix == suffix;
      assert Restrict(record, Names(fields)) == map[];
    } else {
      FieldsRoundTrip(idl, rank, fields[1..], record, suffix, bound);
      var rest := EncodeFields(idl, rank, fields[1..], record, bound).value;
      RoundTrip(idl, rank, fields[0].ty, record[fields[0].name], rest + suffix);
      var first := Encode(idl, rank, fields[0].ty, record[fields[0].name]).value;
      assert (first + rest) + suffix == first + (rest + suffix);
      RestrictFirst(record, fields);
    }
  }

  /** No encoding is a proper prefix of another one of its type, so an encoding determines its value. */
  lemma {:induction false} EncodingIsPrefixFree(idl: Idl, rank: map<Name, nat>, ty: IdlType, v: Value, w: Value, s: seq<byte>, t: seq<byte>)
    requires Ranked(idl, rank) && Typed(idl, rank, ty, v) && Typed(idl, rank, ty, w)
    requires Encode(idl, rank, ty, v).Success? && Encode(idl, rank, ty, w).Success?
    requires Encode(idl, rank, ty, v).value + s == Encode(idl, rank, ty, w).value + t
    ensures v == w && s == t
  {
    RoundTrip(idl, rank, ty, v, s);
    RoundTrip(idl, rank, ty, w, t);
  }

  // ---------------------------------------------------------------- instruction and account data

  function InstructionData(idl: Idl, ghost rank: map<Name, nat>, name: Name, args: map<Name, Value>, ghost bound: nat)
    : Result<seq<byte>, CodecError>
    requires Ranked(idl, rank)
    requires forall ix :: FindInstruction(idl.instructions, name) == Some(ix) ==> FieldsBelow(rank, ix.args, bound)
  {
    match FindInstruction(idl.instructions, name)
    case None => Failure(UnknownInstruction(name))
    case Some(ix) =>
      var body :- EncodeFields(idl, rank, ix.args, args, bound);
      Success(ix.discriminator + body)
  }

  /** Discriminator, then arguments in declaration order, written into one buffer. */
  method EncodeInstructionData(idl: Idl, ghost rank: map<Name, nat>, name: Name, args: map<Name, Value>, ghost bound: nat)
    returns (r: Result<array<byte>, CodecError>)
    requires Ranked(idl, rank)
    requires forall ix :: FindInstruction(idl.instructions, name) == Some(ix) ==> FieldsBelow(rank, ix.args, bound)
    ensures r.Success? ==> fresh(r.value) && InstructionData(idl, rank, name, args, bound) == Success(r.value[..])
    ensures r.Failure? ==> InstructionData(idl, rank, name, args, bound) == Failure(r.error)
  {
    var found := FindInstruction(idl.instructions, name);
    if found.None? { return Failure(UnknownInstruction(name)); }
    var ix := found.value;
    var n := |ix.discriminator|;
    var encoded := EncodeFields(idl, rank, ix.args, args, bound);
    if encoded.Failure? { return Failure(encoded.error); }
    var out := new byte[n + |encoded.value|];
    for i := 0 to n
      invariant out[..i] == ix.discriminator[..i]
    {
      out[i] := ix.discriminator[i];
    }
    for i := 0 to |encoded.value|
      invariant out[..n] == ix.discriminator && out[n..n + i] == encoded.value[..i]
    {
      out[n + i] := encoded.value[i];
    }
    assert out[n..n + |encoded.value|] == encoded.value[..|encoded.value|] == encoded.value;
    assert out[..] == out[..n] + out[n..n + |encoded.value|];
    r := Success(out);
  }

  function AccountData(idl: Idl, ghost rank: map<Name, nat>, name: Name, data: seq<byte>): Result<Value, CodecError>
    requires Ranked(idl, rank)
  {
    match FindAccount(idl.accounts, name)
    case None => Failure(UnknownAccount(name))
    case Some(def) =>
      if !(def.discriminator <= data) then Failure(DiscriminatorMismatch)
      else
        match FindType(idl.types, name)
        case None => Failure(UnknownType(name))
        case Some(Enum(_)) => Failure(NotAStruct)
        case Some(Struct(_)) =>
          var t :- Decode(idl, rank, Defined(name), data[|def.discriminator|..]);
          Success(t.0)
  }

  method DecodeAccountData(idl: Idl, ghost rank: map<Name, nat>, name: Name, data: seq<byte>) returns (r: Result<Value, CodecError>)
    requires Ranked(idl, rank)
    ensures r == AccountData(idl, rank, name, data)
  {
    var def := FindAccount(idl.accounts, name);
    if def.None? { return Failure(UnknownAccount(name)); }
    var discriminator := def.value.discriminator;
    for i := 0 to |discriminator|
      invariant i <= |data| && discriminator[..i] == data[..i]
    {
      if i >= |data| || data[i] != discriminator[i] {
        return Failure(DiscriminatorMismatch);
      }
    }
    var body := FindType(idl.types, name);
    if body.None? { return Failure(UnknownType(name)); }
    if body.value.Enum? { return Failure(NotAStruct); }
    var t :- DecodeFields(idl, rank, body.value.fields, data[|discriminator|..], Rank(rank, Defined(name)));
    r := Success(Object(t.0));
  }

  /** An account whose data is its discriminator, the encoding of a well-typed struct and possibly
      reserved space behind it decodes to that struct; any other discriminator is refused. */
  lemma {:induction false} AccountRoundTrip(idl: Idl, rank: map<Name, nat>, name: Name, v: Value, reserved: seq<byte>)
    requires Ranked(idl, rank) && FindAccount(idl.accounts, name).Some?
    requires FindType(idl.types, name).Some? && FindType(idl.types, name).value.Struct?
    requires Typed(idl, rank, Defined(name), v)
    ensures var e := Encode(idl, rank, Defined(name), v);
            e.Success? && AccountData(idl, rank, name, FindAccount(idl.accounts, name).value.discriminator + e.value + reserved) == Success(v)
  {
    RoundTrip(idl, rank, Defined(name), v, reserved);
    var d, bytes := FindAccount(idl.accounts, name).value.discriminator, Encode(idl, rank, Defined(name), v).value;
    assert d + bytes + reserved == d + (bytes + reserved);
    assert (d + (bytes + reserved))[|d|..] == bytes + reserved;
  }

  /** Instruction data determines its arguments: behind the discriminator they decode back, in order. */
  lemma {:induction false} InstructionRoundTrip(idl: Idl, rank: map<Name, nat>, name: Name, args: map<Name, Value>, bound: nat)
    requires Ranked(idl, rank) && FindInstruction(idl.instructions, name).Some?
    requires FieldsBelow(rank, FindInstruction(idl.instructions, name).value.args, bound)
    requires TypedFields(idl, rank, FindInstruction(idl.instructions, name).value.args, args, bound)
    requires args.Keys == Names(FindInstruction(idl.instructions, name).value.args)
    ensures var ix := FindInstruction(idl.instructions, name).value;
            var data := InstructionData(idl, rank, name, args, bound);
            && data.Success? && ix.discriminator <= data.value
            && DecodeFields(idl, rank, ix.args, data.value[|ix.discriminator|..], bound) == Success((args, []))
  {
    var ix := FindInstruction(idl.instructions, name).value;
    FieldsRoundTrip(idl, rank, ix.args, args, [], bound);
    var body := EncodeFields(idl, rank, ix.args, args, bound).value;
    assert body + [] == body;
    assert (ix.discriminator + body)[|ix.discriminator|..] == body;
    assert Restrict(args, Names(ix.args)) == args;
  }
}
