/** The tensor types a container may hold, and how many bytes so many elements of one take. */
module GgufTypes {
  import opened Options
  import opened Division

  const U64: nat := 0x1_0000_0000_0000_0000

  datatype TensorType = F32 | F16 | Q4_0 | Q8_0 | Q4K | Q5K | Q6K | Bf16

  /** Elements in one block. */
  function BlockSize(t: TensorType): (n: nat)
    ensures n in {1, 32, 256}
  {
    match t
    case F32 | F16 | Bf16 => 1
    case Q4_0 | Q8_0 => 32
    case Q4K | Q5K | Q6K => 256
  }

  /** Bytes in one block. */
  function BlockBytes(t: TensorType): (n: nat)
    ensures 0 < n <= 210
  {
    match t
    case F32 => 4
    case F16 | Bf16 => 2
    case Q4_0 => 18
    case Q8_0 => 34
    case Q4K => 144
    case Q5K => 176
    case Q6K => 210
  }

  function TypeId(t: TensorType): (id: nat)
    ensures TypeOf(id) == Some(t) && id < 31
  {
    match t
    case F32 => 0
    case F16 => 1
    case Q4_0 => 2
    case Q8_0 => 8
    case Q4K => 12
    case Q5K => 13
    case Q6K => 14
    case Bf16 => 30
  }

  function TypeOf(id: nat): Option<TensorType> {
    match id
    case 0 => Some(F32)
    case 1 => Some(F16)
    case 2 => Some(Q4_0)
    case 8 => Some(Q8_0)
    case 12 => Some(Q4K)
    case 13 => Some(Q5K)
    case 14 => Some(Q6K)
    case 30 => Some(Bf16)
    case _ => None
  }

  /** How many elements there are. */
  function Elements(dims: seq<nat>): nat {
    if dims == [] then 1 else Elements(dims[..|dims| - 1]) * dims[|dims| - 1]
  }

  /** How many the code comes to: its product wraps around. */
  function Count(dims: seq<nat>): (n: nat)
    ensures n < U64
  {
    if dims == [] then 1 else Count(dims[..|dims| - 1]) * dims[|dims| - 1] % U64
  }

  lemma ModMul(a: nat, d: nat)
    ensures a % U64 * d % U64 == a * d % U64
  {
    var q, r := a / U64, a % U64;
    assert a * d == U64 * (q * d) + r * d;
    ModAdd(q * d, r * d);
  }

  lemma ModAdd(k: nat, n: nat)
    ensures (U64 * k + n) % U64 == n % U64
  {
  }

  lemma {:induction false} CountWraps(dims: seq<nat>)
    ensures Count(dims) == Elements(dims) % U64
  {
    if dims != [] {
      var k := |dims| - 1;
      CountWraps(dims[..k]);
      ModMul(Elements(dims[..k]), dims[k]);
    }
  }

  /** The bytes of so many elements, wrapping around; none for part of a block. */
  function BytesFor(t: TensorType, n: nat): Option<nat> {
    if n % BlockSize(t) != 0 then None else Some(n / BlockSize(t) * BlockBytes(t) % U64)
  }

  /** The bytes a tensor of these dimensions takes. */
  function Size(t: TensorType, dims: seq<nat>): nat {
    Elements(dims) / BlockSize(t) * BlockBytes(t)
  }

  lemma WholeBlocks(t: TensorType, q: nat, r: nat)
    ensures var b := BlockSize(t);
            (U64 * q + r) % b == r % b && (U64 * q + r) / b == U64 / b * q + r / b
  {
    var b, c := BlockSize(t), U64 / BlockSize(t);
    assert c * b == U64;
    assert U64 * q + r == c * b * q + (r / b * b + r % b) == (c * q + r / b) * b + r % b;
    ModIs(b, c * q + r / b, r % b);
  }

  /** Wrapping loses nothing exactly when there was nothing to lose. */
  lemma WrapsToItself(c: nat, q: nat, n: nat, bytes: nat)
    requires c > 0 && bytes > 0
    ensures n * bytes % U64 == (c * q + n) * bytes <==> q == 0 && n * bytes < U64
  {
    var whole := n * bytes;
    assert (c * q + n) * bytes == c * q * bytes + whole;
    if q > 0 {
      assert c * q > 0 && c * q * bytes > 0;
    }
  }

  /**
   * Exactly when a tensor's size comes out right: when it is whole blocks, and
   * neither its elements nor its bytes are more than 64 bits can count.
   */
  lemma SizeExactIff(t: TensorType, dims: seq<nat>)
    ensures BytesFor(t, Count(dims)) == Some(Size(t, dims))
       <==> Elements(dims) % BlockSize(t) == 0 && Elements(dims) < U64 && Size(t, dims) < U64
  {
    CountWraps(dims);
    var p := Elements(dims);
    var q, r, b := p / U64, p % U64, BlockSize(t);
    assert p == U64 * q + r;
    WholeBlocks(t, q, r);
    WrapsToItself(U64 / b, q, r / b, BlockBytes(t));
  }

  /** A tensor of more elements than there are numbers for passes for one with none. */
  lemma TooLargeIsEmpty()
    ensures BytesFor(F32, Count([0x1_0000_0000, 0x1_0000_0000])) == Some(0)
  {
    var a, b := [0x1_0000_0000], [0x1_0000_0000, 0x1_0000_0000];
    assert a[..0] == [] && b[..1] == a;
    assert Count([]) == 1 && Count(a) == 0x1_0000_0000 && Count(b) == 0;
  }
}
