/** The wire format of the primitive types byte by byte, and which account data is refused. */
module CodecLaws {
  import opened Results
  import opened IdlCodec

  function Shift(n: nat, i: nat): nat {
    if i == 0 then n else Shift(n, i - 1) / 256
  }

  /** Byte `i` of a little-endian integer is its digit of weight 256^i. */
  lemma {:induction false} LittleEndian(n: nat, k: nat, i: nat)
    requires i < k
    ensures Le(n, k)[i] == Shift(n, i) % 256
  {
    if i > 0 {
      LittleEndian(n / 256, k - 1, i - 1);
      ShiftShifts(n, i - 1);
    }
  }

  lemma {:induction false} ShiftShifts(n: nat, i: nat)
    ensures Shift(n / 256, i) == Shift(n, i) / 256
  {
    if i > 0 {
      ShiftShifts(n, i - 1);
    }
  }

  /** An unsigned integer of width `k` is its `k` little-endian bytes, a negative one those of the integer above
      it by 256^k, a boolean one byte, a text its length in four bytes and then itself, an address its 32
      bytes, and a fixed array the bytes given, cut or filled with zeros. */
  lemma {:induction false} WireFormat(idl: Idl, rank: map<Name, nat>, ty: IdlType, v: Value)
    requires Ranked(idl, rank) && !ty.Defined? && Encode(idl, rank, ty, v).Success?
    ensures var e := Encode(idl, rank, ty, v).value;
            match ty
            case Unsigned(k) => v.Num? && 0 <= v.n < Power(k) && |e| == k && FromLe(e) == v.n
            case Signed(k) =>
              v.Num? && 0 - Power(k) <= 2 * v.n < Power(k) && |e| == k && FromLe(e) == v.n + if v.n < 0 then Power(k) else 0
            case Bool => v.Flag? && |e| == 1 && (e[0] == 1 <==> v.b) && (e[0] == 0 <==> !v.b)
            case Str => v.Text? && |e| == 4 + |v.utf8| && FromLe(e[..4]) == |v.utf8| && e[4..] == v.utf8
            case Pubkey => v.Address? && |v.key| == 32 && e == v.key
            case Array(elem, len) =>
              && elem == Unsigned(1) && v.Bytes? && |e| == len
              && forall i :: 0 <= i < len ==> e[i] == if i < |v.bytes| then v.bytes[i] else 0
            case Defined(_) => true
  {
    match ty
    case Unsigned(k) => FromLeOfLe(v.n, k);
    case Signed(k) => FromLeOfLe(ToUnsigned(v.n, k), k);
    case Str =>
      FromLeOfLe(|v.utf8|, 4);
      var e := Encode(idl, rank, ty, v).value;
      assert e[..4] == Le(|v.utf8|, 4);
    case _ =>
  }

  /** Every value that has such a format can be encoded. */
  lemma {:induction false} EncodesExactly(idl: Idl, rank: map<Name, nat>, ty: IdlType, v: Value)
    requires Ranked(idl, rank) && !ty.Defined?
    ensures Encode(idl, rank, ty, v).Success? <==>
            match ty
            case Unsigned(k) => v.Num? && 0 <= v.n < Power(k)
            case Signed(k) => v.Num? && 0 - Power(k) <= 2 * v.n < Power(k)
            case Bool => v.Flag?
            case Str => v.Text? && |v.utf8| < 4_294_967_296
            case Pubkey => v.Address? && |v.key| == 32
            case Array(elem, _) => elem == Unsigned(1) && v.Bytes?
            case Defined(_) => true
  {
    assert Power(4) == 256 * Power(3) == 65_536 * Power(2) == 16_777_216 * Power(1) == 4_294_967_296 * Power(0);
  }

  /** A unit-variant enum is one byte, its index. */
  lemma {:induction false} EnumIsOneByte(idl: Idl, rank: map<Name, nat>, name: Name, v: Value, data: seq<byte>)
    requires Ranked(idl, rank) && FindType(idl.types, name).Some? && FindType(idl.types, name).value.Enum?
    ensures Encode(idl, rank, Defined(name), v).Success? <==> v.Num? && 0 <= v.n <= 255
    ensures v.Num? && 0 <= v.n <= 255 ==> Encode(idl, rank, Defined(name), v) == Success([v.n])
    ensures |data| > 0 ==> Decode(idl, rank, Defined(name), data) == Success((Num(data[0]), data[1..]))
    ensures |data| == 0 ==> Decode(idl, rank, Defined(name), data) == Failure(NotEnoughBytes)
  {
    assert Power(1) == 256 * Power(0);
    if |data| > 0 {
      assert data[..1] == [data[0]];
      FromLeOne(data[0]);
    }
    if v.Num? && 0 <= v.n <= 255 {
      assert v.n % 256 == v.n;
      assert Le(v.n, 1) == [v.n];
    }
  }

  lemma FromLeOne(b: byte)
    ensures FromLe([b]) == b
  {
    assert [b][1..] == [];
  }

  /** The entry of a list that a name stands for: the first one that has it. */
  ghost predicate IsFirst<T(!new)>(list: seq<T>, nameOf: T -> Name, name: Name, entry: T) {
    exists k :: 0 <= k < |list| && list[k] == entry && nameOf(entry) == name && forall j :: 0 <= j < k ==> nameOf(list[j]) != name
  }

  lemma FirstOfRest<T(!new)>(list: seq<T>, nameOf: T -> Name, name: Name, entry: T)
    requires list != [] && nameOf(list[0]) != name && IsFirst(list[1..], nameOf, name, entry)
    ensures IsFirst(list, nameOf, name, entry)
  {
    var k :| 0 <= k < |list[1..]| && list[1..][k] == entry && nameOf(entry) == name
             && forall j :: 0 <= j < k ==> nameOf(list[1..][j]) != name;
    forall j | 0 <= j < k + 1 ensures nameOf(list[j]) != name {
      if j > 0 {
        assert list[1..][j - 1] == list[j];
      }
    }
    assert list[k + 1] == entry;
  }

  lemma {:induction false} InstructionIsFirst(list: seq<Instruction>, name: Name)
    ensures match FindInstruction(list, name)
            case Some(i) => IsFirst(list, (x: Instruction) => x.name, name, i)
            case None => forall i :: i in list ==> i.name != name
  {
    if list != [] && list[0].name != name {
      InstructionIsFirst(list[1..], name);
      if FindInstruction(list[1..], name).Some? {
        FirstOfRest(list, (x: Instruction) => x.name, name, FindInstruction(list[1..], name).value);
      } else {
        assert forall i :: i in list ==> i == list[0] || i in list[1..];
      }
    }
  }

  lemma {:induction false} AccountIsFirst(list: seq<AccountDef>, name: Name)
    ensures match FindAccount(list, name)
            case Some(a) => IsFirst(list, (x: AccountDef) => x.name, name, a)
            case None => forall a :: a in list ==> a.name != name
  {
    if list != [] && list[0].name != name {
      AccountIsFirst(list[1..], name);
      if FindAccount(list[1..], name).Some? {
        FirstOfRest(list, (x: AccountDef) => x.name, name, FindAccount(list[1..], name).value);
      } else {
        assert forall a :: a in list ==> a == list[0] || a in list[1..];
      }
    }
  }

  lemma {:induction false} TypeIsFirst(list: seq<TypeDef>, name: Name)
    ensures match FindType(list, name)
            case Some(body) => IsFirst(list, (x: TypeDef) => x.name, name, TypeDef(name, body))
            case None => forall d :: d in list ==> d.name != name
  {
    if list != [] && list[0].name != name {
      TypeIsFirst(list[1..], name);
      if FindType(list[1..], name).Some? {
        FirstOfRest(list, (x: TypeDef) => x.name, name, TypeDef(name, FindType(list[1..], name).value));
      } else {
        assert forall d :: d in list ==> d == list[0] || d in list[1..];
      }
    }
  }

  // ---------------------------------------------------------------- accounts

  /** Account data decodes if and only if it starts with the account's own discriminator, the account is a
      struct, and the bytes behind the discriminator decode as that struct; what follows them is ignored. */
  lemma {:induction false} AccountDecodesExactly(idl: Idl, rank: map<Name, nat>, name: Name, data: seq<byte>, v: Value)
    requires Ranked(idl, rank)
    ensures AccountData(idl, rank, name, data) == Success(v) <==>
            && FindAccount(idl.accounts, name).Some?
            && var d := FindAccount(idl.accounts, name).value.discriminator;
               && |d| <= |data| && data[..|d|] == d
               && FindType(idl.types, name).Some? && FindType(idl.types, name).value.Struct?
               && Decode(idl, rank, Defined(name), data[|d|..]).Success?
               && Decode(idl, rank, Defined(name), data[|d|..]).value.0 == v
  {
  }

  /** Data that is too short or differs from the discriminator in any byte is refused as such. */
  lemma {:induction false} OtherDiscriminatorIsRefused(idl: Idl, rank: map<Name, nat>, name: Name, data: seq<byte>)
    requires Ranked(idl, rank) && FindAccount(idl.accounts, name).Some?
    ensures var d := FindAccount(idl.accounts, name).value.discriminator;
            (|data| < |d| || exists i :: 0 <= i < |d| && data[i] != d[i]) <==> AccountData(idl, rank, name, data) == Failure(DiscriminatorMismatch)
  {
    var d := FindAccount(idl.accounts, name).value.discriminator;
    if |d| <= |data| && forall i :: 0 <= i < |d| ==> data[i] == d[i] {
      assert data[..|d|] == d;
      DecodeNeverMismatches(idl, rank, Defined(name), data[|d|..]);
    }
  }

  lemma {:induction false} DecodeNeverMismatches(idl: Idl, rank: map<Name, nat>, ty: IdlType, s: seq<byte>)
    requires Ranked(idl, rank)
    ensures Decode(idl, rank, ty, s) != Failure(DiscriminatorMismatch)
    decreases Rank(rank, ty), 1, 0
  {
    if ty.Defined? && FindType(idl.types, ty.name).Some? && FindType(idl.types, ty.name).value.Struct? {
      FieldsNeverMismatch(idl, rank, FindType(idl.types, ty.name).value.fields, s, Rank(rank, ty));
    }
  }

  lemma {:induction false} FieldsNeverMismatch(idl: Idl, rank: map<Name, nat>, fields: seq<Field>, s: seq<byte>, bound: nat)
    requires Ranked(idl, rank) && FieldsBelow(rank, fields, bound)
    ensures DecodeFields(idl, rank, fields, s, bound) != Failure(DiscriminatorMismatch)
    decreases bound, 0, |fields|
  {
    if fields != [] {
      assert Rank(rank, fields[0].ty) < bound;
      DecodeNeverMismatches(idl, rank, fields[0].ty, s);
      if Decode(idl, rank, fields[0].ty, s).Success? {
        FieldsNeverMismatch(idl, rank, fields[1..], Decode(idl, rank, fields[0].ty, s).value.1, bound);
      }
    }
  }
}
