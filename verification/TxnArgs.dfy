/** Checking the signature of an entry function and the arguments it is called with. */
module TxnArgs {
  import opened Base

  type byte = x: int | 0 <= x < 256

  datatype Ty =
    | Bool | U8 | U64 | U128 | Address | Signer
    | Vector(inner: Ty)
    | Struct(idx: nat)
    | StructInstantiation(idx: nat, tyArgs: seq<Ty>)
    | Reference(inner: Ty)
    | MutableReference(inner: Ty)
    | TyParam(n: nat)

  /** What is looked up or computed elsewhere: the full names of loaded structs, reading a length
      at a position (and where it ends), checking UTF-8, and serializing a signer. */
  datatype Env = Env(structName: nat -> Option<string>,
                     readLength: (seq<byte>, nat) -> Option<(nat, nat)>,
                     isUtf8: seq<byte> -> bool,
                     signerBytes: nat -> seq<byte>)

  /** The structs allowed as arguments, and whether their values are validated. */
  const ALLOWED_STRUCTS: map<string, bool> := map["0x1::string::String" := true]

  datatype Status = InvalidSignature | ArgumentCountMismatch | SignerCountMismatch | MalformedArgument

  /******* Types *******/

  /** Whether the argument type is allowed, and whether its values need validation. */
  function IsValidTxnArg(env: Env, ty: Ty): (bool, bool)
  {
    match ty
    case Bool => (true, false)
    case U8 => (true, false)
    case U64 => (true, false)
    case U128 => (true, false)
    case Address => (true, false)
    case Vector(inner) => IsValidTxnArg(env, inner)
    case Struct(idx) => IsValidStruct(env, idx)
    case StructInstantiation(idx, _) => IsValidStruct(env, idx)
    case _ => (false, false)
  }

  function IsValidStruct(env: Env, idx: nat): (bool, bool)
  {
    match env.structName(idx)
    case None => (false, false)
    case Some(name) => if name in ALLOWED_STRUCTS then (true, ALLOWED_STRUCTS[name]) else (false, false)
  }

  /** What is left of a type under all its vectors. */
  function Element(ty: Ty): Ty
  {
    if ty.Vector? then Element(ty.inner) else ty
  }

  predicate IsString(env: Env, ty: Ty)
  {
    (ty.Struct? || ty.StructInstantiation?) && env.structName(ty.idx) == Some("0x1::string::String")
  }

  predicate IsPlain(ty: Ty)
  {
    ty.Bool? || ty.U8? || ty.U64? || ty.U128? || ty.Address?
  }

  /** Allowed are plain values and strings, in any number of vectors; only strings are validated. */
  lemma {:induction false} ValidArgMeaning(env: Env, ty: Ty)
    ensures IsValidTxnArg(env, ty).0 <==> Element(ty) in [Bool, U8, U64, U128, Address] || IsString(env, Element(ty))
    ensures IsPlain(Element(ty)) <==> Element(ty) in [Bool, U8, U64, U128, Address]
    ensures IsValidTxnArg(env, ty).1 <==> IsString(env, Element(ty))
  {
    if ty.Vector? { ValidArgMeaning(env, ty.inner); }
  }

  /******* Values *******/

  /** The bytes from `pos` to `end` are a string, or a vector of such values. */
  ghost predicate Encodes(env: Env, ty: Ty, bytes: seq<byte>, pos: nat, end: nat)
    decreases ty
  {
    match env.readLength(bytes, pos)
    case None => false
    case Some((len, start)) =>
      if ty.Vector? then exists cuts :: IsCuts(cuts, len, start, end) && forall i :: 0 <= i < len ==>
          EncodesItem(env, ty, bytes, cuts, i)
      else end == start + len && end <= |bytes| && env.isUtf8(bytes[start..end])
  }

  /** The ends of `len` consecutive elements, the first starting at `start`. */
  predicate IsCuts(cuts: seq<nat>, len: nat, start: nat, end: nat)
  {
    |cuts| == len + 1 && cuts[0] == start && cuts[len] == end
  }

  ghost predicate EncodesItem(env: Env, ty: Ty, bytes: seq<byte>, cuts: seq<nat>, i: nat)
    requires ty.Vector? && i + 1 < |cuts|
    decreases ty, 0
  {
    Encodes(env, ty.inner, bytes, cuts[i], cuts[i + 1])
  }

  /** A value ends in one place only. */
  lemma {:induction false} EncodesOnce(env: Env, ty: Ty, bytes: seq<byte>, pos: nat, end: nat, end': nat)
    requires Encodes(env, ty, bytes, pos, end) && Encodes(env, ty, bytes, pos, end')
    ensures end == end'
    decreases ty, 1
  {
    if ty.Vector? {
      var (len, start) := env.readLength(bytes, pos).value;
      var cuts :| IsCuts(cuts, len, start, end) && forall i :: 0 <= i < len ==> EncodesItem(env, ty, bytes, cuts, i);
      var cuts' :| IsCuts(cuts', len, start, end') && forall i :: 0 <= i < len ==>
          EncodesItem(env, ty, bytes, cuts', i);
      CutsAgree(env, ty, bytes, cuts, cuts', len);
    }
  }

  lemma {:induction false} CutsAgree(env: Env, ty: Ty, bytes: seq<byte>, cuts: seq<nat>, cuts': seq<nat>, n: nat)
    requires ty.Vector? && n < |cuts| && n < |cuts'| && cuts[0] == cuts'[0]
    requires forall i :: 0 <= i < n ==> EncodesItem(env, ty, bytes, cuts, i)
    requires forall i :: 0 <= i < n ==> EncodesItem(env, ty, bytes, cuts', i)
    ensures cuts[n] == cuts'[n]
    decreases ty, 0, n
  {
    if n == 0 {
    } else {
      CutsAgree(env, ty, bytes, cuts, cuts', n - 1);
      assert EncodesItem(env, ty, bytes, cuts, n - 1) && EncodesItem(env, ty, bytes, cuts', n - 1);
      EncodesOnce(env, ty.inner, bytes, cuts[n - 1], cuts[n], cuts'[n]);
    }
  }

  /******* Serialized values *******/

  datatype Value = Text(text: seq<byte>) | Items(items: seq<Value>)

  /** Lengths are 64-bit numbers. */
  const LENGTHS: nat := 0x1_0000_0000_0000_0000

  predicate HasType(v: Value, ty: Ty)
  {
    match v
    case Text(text) => !ty.Vector? && |text| < LENGTHS
    case Items(items) => ty.Vector? && |items| < LENGTHS && forall i :: 0 <= i < |items| ==> HasType(items[i], ty.inner)
  }

  predicate AllUtf8(env: Env, v: Value)
  {
    match v
    case Text(text) => env.isUtf8(text)
    case Items(items) => forall i :: 0 <= i < |items| ==> AllUtf8(env, items[i])
  }

  /** A length, and then the bytes of the text or of the items. */
  function Serialized(lengthBytes: nat -> seq<byte>, v: Value): seq<byte>
    decreases v, 1
  {
    match v
    case Text(text) => lengthBytes(|text|) + text
    case Items(items) => lengthBytes(|items|) + AllSerialized(lengthBytes, v, |items|)
  }

  /** The first `n` items one after the other. */
  function AllSerialized(lengthBytes: nat -> seq<byte>, v: Value, n: nat): seq<byte>
    requires v.Items? && n <= |v.items|
    decreases v, 0, n
  {
    if n == 0 then [] else AllSerialized(lengthBytes, v, n - 1) + Serialized(lengthBytes, v.items[n - 1])
  }

  /** A length that has been written is read back, wherever it stands. */
  ghost predicate ReadsBack(env: Env, lengthBytes: nat -> seq<byte>)
  {
    forall bytes, pos: nat, n: nat :: n < LENGTHS && StandsAt(bytes, pos, lengthBytes(n)) ==>
      env.readLength(bytes, pos) == Some((n, pos + |lengthBytes(n)|))
  }

  predicate StandsAt(bytes: seq<byte>, pos: nat, part: seq<byte>)
  {
    pos + |part| <= |bytes| && bytes[pos..pos + |part|] == part
  }

  lemma PartsStand(bytes: seq<byte>, pos: nat, first: seq<byte>, second: seq<byte>)
    requires StandsAt(bytes, pos, first + second)
    ensures StandsAt(bytes, pos, first) && StandsAt(bytes, pos + |first|, second)
  {
    var whole := bytes[pos..pos + |first + second|];
    assert whole[..|first|] == first && whole[|first|..] == second;
  }

  /** The walk over a serialized value accepts it, and ends where it ends, exactly if all its texts
      are UTF-8. */
  lemma {:induction false} SerializedIsEncoded(env: Env, lengthBytes: nat -> seq<byte>, v: Value, ty: Ty,
                                               bytes: seq<byte>, pos: nat)
    requires ReadsBack(env, lengthBytes) && HasType(v, ty) && StandsAt(bytes, pos, Serialized(lengthBytes, v))
    ensures var end := pos + |Serialized(lengthBytes, v)|;
            && (Encodes(env, ty, bytes, pos, end) <==> AllUtf8(env, v))
            && forall e :: Encodes(env, ty, bytes, pos, e) ==> e == end
    decreases v, 1
  {
    match v
    case Text(text) =>
      PartsStand(bytes, pos, lengthBytes(|text|), text);
    case Items(items) =>
      var head := lengthBytes(|items|);
      PartsStand(bytes, pos, head, AllSerialized(lengthBytes, v, |items|));
      var cuts := ItemsAreEncoded(env, lengthBytes, v, ty, bytes, pos + |head|, |items|);
      var end := pos + |Serialized(lengthBytes, v)|;
      assert IsCuts(cuts, |items|, pos + |head|, end);
      assert env.readLength(bytes, pos) == Some((|items|, pos + |head|));
      if AllUtf8(env, v) {
        forall i | 0 <= i < |items| ensures EncodesItem(env, ty, bytes, cuts, i) {
          assert CutOf(env, ty, bytes, v, cuts, i) && AllUtf8(env, items[i]);
        }
        assert Encodes(env, ty, bytes, pos, end);
      }
      forall e | Encodes(env, ty, bytes, pos, e) ensures e == end && AllUtf8(env, v) {
        var cuts' :| IsCuts(cuts', |items|, pos + |head|, e) && forall i :: 0 <= i < |items| ==>
            EncodesItem(env, ty, bytes, cuts', i);
        CutsFollow(env, v, ty, bytes, cuts, cuts', |items|);
      }
  }

  /** Where the items of a serialized vector end. */
  lemma {:induction false} ItemsAreEncoded(env: Env, lengthBytes: nat -> seq<byte>, v: Value, ty: Ty,
                                           bytes: seq<byte>, start: nat, n: nat) returns (cuts: seq<nat>)
    requires ReadsBack(env, lengthBytes) && v.Items? && HasType(v, ty) && n <= |v.items|
    requires StandsAt(bytes, start, AllSerialized(lengthBytes, v, n))
    ensures |cuts| == n + 1 && cuts[0] == start && cuts[n] == start + |AllSerialized(lengthBytes, v, n)|
    ensures forall i :: 0 <= i < n ==> CutOf(env, ty, bytes, v, cuts, i)
    decreases v, 0, n
  {
    if n == 0 {
      cuts := [start];
    } else {
      var front, item := AllSerialized(lengthBytes, v, n - 1), v.items[n - 1];
      PartsStand(bytes, start, front, Serialized(lengthBytes, item));
      var before := ItemsAreEncoded(env, lengthBytes, v, ty, bytes, start, n - 1);
      SerializedIsEncoded(env, lengthBytes, item, ty.inner, bytes, start + |front|);
      cuts := before + [start + |front| + |Serialized(lengthBytes, item)|];
      forall i | 0 <= i < n ensures CutOf(env, ty, bytes, v, cuts, i) {
        if i < n - 1 { assert CutOf(env, ty, bytes, v, before, i); }
      }
    }
  }

  /** Between two cuts there is the item, if anything. */
  ghost predicate CutOf(env: Env, ty: Ty, bytes: seq<byte>, v: Value, cuts: seq<nat>, i: nat)
    requires ty.Vector? && v.Items? && i < |v.items| && i + 1 < |cuts|
  {
    && (EncodesItem(env, ty, bytes, cuts, i) <==> AllUtf8(env, v.items[i]))
    && forall e :: Encodes(env, ty.inner, bytes, cuts[i], e) ==> e == cuts[i + 1]
  }

  lemma {:induction false} CutsFollow(env: Env, v: Value, ty: Ty, bytes: seq<byte>, cuts: seq<nat>, cuts': seq<nat>,
                                      n: nat)
    requires ty.Vector? && v.Items? && n <= |v.items| && n < |cuts| && n < |cuts'| && cuts[0] == cuts'[0]
    requires forall i :: 0 <= i < n ==> CutOf(env, ty, bytes, v, cuts, i) && EncodesItem(env, ty, bytes, cuts', i)
    ensures cuts[n] == cuts'[n] && forall i :: 0 <= i < n ==> AllUtf8(env, v.items[i])
    decreases n
  {
    if n == 0 {
    } else {
      CutsFollow(env, v, ty, bytes, cuts, cuts', n - 1);
      assert CutOf(env, ty, bytes, v, cuts, n - 1) && EncodesItem(env, ty, bytes, cuts', n - 1);
      assert Encodes(env, ty.inner, bytes, cuts[n - 1], cuts'[n]);
      assert EncodesItem(env, ty, bytes, cuts, n - 1);
    }
  }

  /** Round trip: a serialized argument is accepted exactly if all its texts are UTF-8. */
  lemma SerializedIsAccepted(env: Env, lengthBytes: nat -> seq<byte>, v: Value, ty: Ty)
    requires ReadsBack(env, lengthBytes) && HasType(v, ty) && IsString(env, Element(ty))
    ensures GivenOk(env, ty, Serialized(lengthBytes, v)) <==> AllUtf8(env, v)
  {
    var bytes := Serialized(lengthBytes, v);
    assert bytes[0..|bytes|] == bytes;
    SerializedIsEncoded(env, lengthBytes, v, ty, bytes, 0);
  }

  /** Where the cursor is after a value, or that the value was rejected.  `Unreachable` stands for
      the `unreachable` arm and the failing lookups. */
  datatype Walk = At(pos: nat) | Rejected | Unreachable

  /** The walk over one argument finds exactly the values, and never reaches the impossible arm. */
  method ValidateArg(env: Env, ty: Ty, bytes: seq<byte>, pos: nat) returns (r: Walk)
    ensures IsString(env, Element(ty)) ==> r != Unreachable
    ensures r.At? ==> Encodes(env, ty, bytes, pos, r.pos)
    ensures r.Rejected? ==> forall end :: !Encodes(env, ty, bytes, pos, end)
    decreases ty
  {
    if ty.Vector? {
      var read := env.readLength(bytes, pos);
      if read.None? { return Rejected; }
      r := ValidateItems(env, ty, bytes, pos, read.value.0, read.value.1);
    } else if ty.Struct? || ty.StructInstantiation? {
      var read := env.readLength(bytes, pos);
      if read.None? { return Rejected; }
      var (len, start) := read.value;
      if start + len > |bytes| { return Rejected; }
      var text := bytes[start..start + len];
      var name := env.structName(ty.idx);
      if name.None? || name.value !in ALLOWED_STRUCTS { return Unreachable; }
      if ALLOWED_STRUCTS[name.value] && !env.isUtf8(text) { return Rejected; }
      r := At(start + len);
    } else {
      r := Unreachable;
    }
  }

  method ValidateItems(env: Env, ty: Ty, bytes: seq<byte>, pos: nat, len: nat, start: nat) returns (r: Walk)
    requires ty.Vector? && env.readLength(bytes, pos) == Some((len, start))
    ensures IsString(env, Element(ty)) ==> r != Unreachable
    ensures r.At? ==> Encodes(env, ty, bytes, pos, r.pos)
    ensures r.Rejected? ==> forall end :: !Encodes(env, ty, bytes, pos, end)
    decreases ty, 0
  {
    ghost var cuts := [start];
    var at, left := start, len;
    while left > 0
      invariant 0 <= left <= len && |cuts| == len - left + 1 && cuts[0] == start && cuts[len - left] == at
      invariant forall i :: 0 <= i < len - left ==> EncodesItem(env, ty, bytes, cuts, i)
    {
      var item := ValidateArg(env, ty.inner, bytes, at);
      if item.Unreachable? { return Unreachable; }
      if item.Rejected? {
        forall end ensures !Encodes(env, ty, bytes, pos, end) {
          if Encodes(env, ty, bytes, pos, end) { ItemEncoded(env, ty, bytes, pos, end, cuts, len - left); }
        }
        return Rejected;
      }
      ghost var longer := cuts + [item.pos];
      forall i | 0 <= i < len - left + 1 ensures EncodesItem(env, ty, bytes, longer, i) {
        assert i < len - left ==> EncodesItem(env, ty, bytes, cuts, i);
      }
      cuts := longer;
      at, left := item.pos, left - 1;
    }
    assert IsCuts(cuts, len, start, at);
    r := At(at);
  }

  /** In an encoded vector, the element after those walked over is encoded too. */
  lemma ItemEncoded(env: Env, ty: Ty, bytes: seq<byte>, pos: nat, end: nat, cuts: seq<nat>, n: nat)
    requires ty.Vector? && env.readLength(bytes, pos).Some? && n < env.readLength(bytes, pos).value.0
    requires |cuts| == n + 1 && cuts[0] == env.readLength(bytes, pos).value.1
    requires forall i :: 0 <= i < n ==> EncodesItem(env, ty, bytes, cuts, i)
    requires Encodes(env, ty, bytes, pos, end)
    ensures exists e :: Encodes(env, ty.inner, bytes, cuts[n], e)
  {
    var (len, start) := env.readLength(bytes, pos).value;
    var cuts' :| IsCuts(cuts', len, start, end) && forall i :: 0 <= i < len ==> EncodesItem(env, ty, bytes, cuts', i);
    CutsAgree(env, ty, bytes, cuts, cuts', n);
    assert EncodesItem(env, ty, bytes, cuts', n);
    assert Encodes(env, ty.inner, bytes, cuts[n], cuts'[n + 1]);
  }

  /******* Signatures *******/

  predicate IsSigner(ty: Ty)
  {
    ty == Signer || ty == Reference(Signer)
  }

  function Signers(params: seq<Ty>): nat
  {
    if params == [] then 0 else Signers(params[..|params| - 1]) + if IsSigner(params[|params| - 1]) then 1 else 0
  }

  method CountSigners(params: seq<Ty>) returns (n: nat)
    ensures n == Signers(params) <= |params|
  {
    n := 0;
    for i := 0 to |params|
      invariant n == Signers(params[..i]) <= i
    {
      assert params[..i + 1][..i] == params[..i];
      match params[i] {
        case Signer => n := n + 1;
        case Reference(inner) => if inner.Signer? { n := n + 1; }
        case _ =>
      }
    }
    assert params[..|params|] == params;
  }

  /** The number of parameters that are a signer or a reference to one. */
  lemma {:induction false} SignersAreCounted(params: seq<Ty>)
    ensures Signers(params) == |set i | 0 <= i < |params| && (params[i] == Signer || params[i] == Reference(Signer))|
  {
    if params == [] {
    } else {
      var n := |params| - 1;
      SignersAreCounted(params[..n]);
      var before := set i | 0 <= i < n && (params[..n][i] == Signer || params[..n][i] == Reference(Signer));
      var now := set i | 0 <= i < |params| && (params[i] == Signer || params[i] == Reference(Signer));
      assert now == if IsSigner(params[n]) then before + {n} else before;
    }
  }

  lemma {:induction false} SignersBounded(params: seq<Ty>)
    ensures Signers(params) <= |params|
    ensures Signers(params) == |params| ==> forall i :: 0 <= i < |params| ==> IsSigner(params[i])
  {
    if params == [] {
    } else {
      SignersBounded(params[..|params| - 1]);
    }
  }

  lemma {:induction false} SignersConcat(front: seq<Ty>, back: seq<Ty>)
    ensures Signers(front + back) == Signers(front) + Signers(back)
  {
    if back == [] {
      assert front + back == front;
    } else {
      SignersConcat(front, back[..|back| - 1]);
      assert (front + back)[..|front + back| - 1] == front + back[..|back| - 1];
    }
  }

  lemma {:induction false} NoSigners(params: seq<Ty>)
    requires forall i :: 0 <= i < |params| ==> !IsSigner(params[i])
    ensures Signers(params) == 0
  {
    if params == [] {
    } else {
      NoSigners(params[..|params| - 1]);
    }
  }

  predicate AllAllowed(env: Env, params: seq<Ty>)
  {
    forall i :: 0 <= i < |params| ==> IsPlain(Element(params[i])) || IsString(env, Element(params[i]))
  }

  /** Signers first, then allowed types only. */
  ghost predicate GoodSignature(env: Env, params: seq<Ty>, signers: nat)
  {
    && signers <= |params|
    && (forall i :: 0 <= i < signers ==> params[i] == Signer || params[i] == Reference(Signer))
    && AllAllowed(env, params[signers..])
  }

  /** Counting signers anywhere and checking only what comes after as many parameters is the same
      as asking for a prefix of signers. */
  lemma CountedPrefix(env: Env, params: seq<Ty>)
    ensures Signers(params) <= |params|
    ensures AllAllowed(env, params[Signers(params)..]) ==> GoodSignature(env, params, Signers(params))
    ensures forall n: nat :: GoodSignature(env, params, n) ==> n == Signers(params)
  {
    SignersBounded(params);
    var n := Signers(params);
    if AllAllowed(env, params[n..]) {
      SplitSigners(env, params, n);
      SignersBounded(params[..n]);
      forall i | 0 <= i < n ensures IsSigner(params[i]) { assert IsSigner(params[..n][i]); }
    }
    forall m: nat | GoodSignature(env, params, m) ensures m == n {
      SplitSigners(env, params, m);
      AllSigners(params[..m]);
    }
  }

  lemma SplitSigners(env: Env, params: seq<Ty>, n: nat)
    requires n <= |params| && AllAllowed(env, params[n..])
    ensures Signers(params) == Signers(params[..n])
  {
    assert params == params[..n] + params[n..];
    SignersConcat(params[..n], params[n..]);
    forall i | 0 <= i < |params[n..]| ensures !IsSigner(params[n..][i]) {
      assert IsPlain(Element(params[n..][i])) || IsString(env, Element(params[n..][i]));
    }
    NoSigners(params[n..]);
  }

  lemma {:induction false} AllSigners(params: seq<Ty>)
    requires forall i :: 0 <= i < |params| ==> IsSigner(params[i])
    ensures Signers(params) == |params|
  {
    if params == [] {
    } else {
      AllSigners(params[..|params| - 1]);
    }
  }

  /******* The whole check *******/

  datatype Function = Function(parameters: seq<Ty>, returns_: seq<Ty>)

  datatype Combined = Args(args: seq<seq<byte>>) | Error(status: Status)

  /** The argument is a well-formed value if it holds strings. */
  ghost predicate GivenOk(env: Env, ty: Ty, arg: seq<byte>)
  {
    IsString(env, Element(ty)) ==> exists end :: Encodes(env, ty, arg, 0, end)
  }

  ghost predicate ArgOk(env: Env, params: seq<Ty>, args: seq<seq<byte>>, i: nat)
    requires i < |params| && i < |args|
  {
    GivenOk(env, params[i], args[i])
  }

  /** Walks over the arguments at the given indices. */
  method ValidateArgs(env: Env, idxs: set<nat>, args: seq<seq<byte>>, params: seq<Ty>) returns (r: Walk)
    requires |args| == |params|
    requires forall i :: 0 <= i < |params| ==> (i in idxs <==> IsString(env, Element(params[i])))
    ensures r != Unreachable
    ensures r.At? <==> forall i :: 0 <= i < |params| ==> ArgOk(env, params, args, i)
  {
    for i := 0 to |params|
      invariant forall j :: 0 <= j < i ==> ArgOk(env, params, args, j)
    {
      if i in idxs {
        r := ValidateArg(env, params[i], args[i], 0);
        if !r.At? {
          assert !ArgOk(env, params, args, i);
          return;
        }
      }
    }
    r := At(0);
  }

  /** What the check accepts: signers and allowed parameters, one argument for each of the latter,
      one sender for each signer if there is any, and well-formed values where there are strings. */
  ghost predicate Accepts(env: Env, senders: seq<nat>, args: seq<seq<byte>>, func: Function)
  {
    var n := Signers(func.parameters);
    && func.returns_ == []
    && GoodSignature(env, func.parameters, n)
    && n + |args| == |func.parameters|
    && (n > 0 ==> |senders| == n)
    && forall j :: 0 <= j < |args| ==> GivenOk(env, func.parameters[n + j], args[j])
  }

  /** A function without signers is called alike by any number of senders; one with signers only by
      as many. */
  lemma SendersMatter(env: Env, senders: seq<nat>, senders': seq<nat>, args: seq<seq<byte>>, func: Function)
    requires Accepts(env, senders, args, func)
    ensures Accepts(env, senders', args, func) <==>
            |senders'| == |senders| || forall i :: 0 <= i < |func.parameters| ==> !IsSigner(func.parameters[i])
  {
    var params, n := func.parameters, Signers(func.parameters);
    if n == 0 {
      assert params[0..] == params;
      forall i | 0 <= i < |params| ensures !IsSigner(params[i]) {
        assert IsPlain(Element(params[i])) || IsString(env, Element(params[i]));
      }
    } else {
      assert params[0] == Signer || params[0] == Reference(Signer);
    }
  }

  /** The first check that fails. */
  ghost function StatusOf(env: Env, senders: seq<nat>, args: seq<seq<byte>>, func: Function): Status
  {
    var n := Signers(func.parameters);
    if func.returns_ != [] || !GoodSignature(env, func.parameters, n) then InvalidSignature
    else if n + |args| != |func.parameters| then ArgumentCountMismatch
    else if n > 0 && |senders| != n then SignerCountMismatch
    else MalformedArgument
  }

  /** Checks the types after the signers; `idxs` are the parameters that hold strings. */
  method CheckTypes(env: Env, params: seq<Ty>, n: nat) returns (ok: bool, idxs: set<nat>)
    requires n <= |params|
    ensures ok <==> AllAllowed(env, params[n..])
    ensures ok ==> forall j :: j in idxs <==> n <= j < |params| && IsString(env, Element(params[j]))
  {
    idxs := {};
    for i := n to |params|
      invariant forall j :: n <= j < i ==> IsPlain(Element(params[j])) || IsString(env, Element(params[j]))
      invariant forall j :: j in idxs <==> n <= j < i && IsString(env, Element(params[j]))
    {
      var (valid, validation) := IsValidTxnArg(env, params[i]);
      ValidArgMeaning(env, params[i]);
      if !valid {
        assert params[n..][i - n] == params[i];
        return false, {};
      }
      if validation { idxs := idxs + {i}; }
    }
    ok := true;
  }

  /** The senders' addresses come first, if signers are asked for, and then the given arguments. */
  method Combine(env: Env, senders: seq<nat>, args: seq<seq<byte>>, n: nat) returns (combined: seq<seq<byte>>)
    requires n > 0 ==> |senders| == n
    ensures |combined| == n + |args|
    ensures forall i :: 0 <= i < n ==> combined[i] == env.signerBytes(senders[i])
    ensures forall j :: 0 <= j < |args| ==> combined[n + j] == args[j]
  {
    combined := args;
    if n > 0 { combined := seq(n, i requires 0 <= i < n => env.signerBytes(senders[i])) + args; }
  }

  method ValidateAndCombine(env: Env, senders: seq<nat>, args: seq<seq<byte>>, func: Function) returns (r: Combined)
    ensures r.Args? <==> Accepts(env, senders, args, func)
    ensures r.Args? ==> forall n: nat :: GoodSignature(env, func.parameters, n) ==>
              && |r.args| == n + |args| == |func.parameters|
              && (forall i :: 0 <= i < n ==> i < |senders| && r.args[i] == env.signerBytes(senders[i]))
              && (forall j :: 0 <= j < |args| ==> r.args[n + j] == args[j])
    ensures r.Error? ==> r.status == StatusOf(env, senders, args, func)
  {
    CountedPrefix(env, func.parameters);
    if func.returns_ != [] { return Error(InvalidSignature); }
    var params := func.parameters;
    var n := CountSigners(params);
    var ok, idxs := CheckTypes(env, params, n);
    if !ok { return Error(InvalidSignature); }
    if n + |args| != |params| { return Error(ArgumentCountMismatch); }
    if n > 0 && |senders| != n { return Error(SignerCountMismatch); }
    var combined := Combine(env, senders, args, n);
    ArgsAreGiven(env, params, n, args, combined);
    if idxs != {} {
      var walked := ValidateArgs(env, idxs, combined, params);
      if !walked.At? { return Error(MalformedArgument); }
    }
    r := Args(combined);
  }

  /** Signers hold no strings, so it is the given arguments that have to be well-formed. */
  lemma ArgsAreGiven(env: Env, params: seq<Ty>, n: nat, args: seq<seq<byte>>, combined: seq<seq<byte>>)
    requires GoodSignature(env, params, n) && |params| == n + |args| == |combined|
    requires forall j :: 0 <= j < |args| ==> combined[n + j] == args[j]
    ensures (forall i :: 0 <= i < |params| ==> ArgOk(env, params, combined, i)) <==>
            (forall j :: 0 <= j < |args| ==> GivenOk(env, params[n + j], args[j]))
    ensures forall i :: 0 <= i < |params| && IsString(env, Element(params[i])) ==> n <= i
  {
    forall j | 0 <= j < |args| ensures ArgOk(env, params, combined, n + j) <==> GivenOk(env, params[n + j], args[j]) {}
    forall i | 0 <= i < |params|
      ensures ArgOk(env, params, combined, i) <==> (i >= n ==> GivenOk(env, params[i], args[i - n]))
    {
      var j := i - n;
      if j >= 0 { assert ArgOk(env, params, combined, n + j) <==> GivenOk(env, params[n + j], args[j]); }
    }
  }
}
