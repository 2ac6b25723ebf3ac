/** Octets, big-endian numbers and bitwise exclusive or. */
module Octets {
  type byte = x: int | 0 <= x < 256

  function Zeros(n: nat): (z: seq<byte>)
    ensures |z| == n
  {
    seq(n, _ => 0)
  }

  function Pow256(n: nat): (p: nat)
    ensures p > 0
  {
    if n == 0 then 1 else 256 * Pow256(n - 1)
  }

  /** The number an octet string denotes in network byte order. */
  function BigEndian(s: seq<byte>): nat {
    if s == [] then 0 else 256 * BigEndian(s[..|s| - 1]) + s[|s| - 1]
  }

  lemma {:induction false} BigEndianBound(s: seq<byte>)
    ensures BigEndian(s) < Pow256(|s|)
  {
    if s != [] {
      BigEndianBound(s[..|s| - 1]);
    }
  }

  /** Octet strings of one length are told apart by the number they denote. */
  lemma {:induction false} BigEndianInjective(a: seq<byte>, b: seq<byte>)
    requires |a| == |b| && BigEndian(a) == BigEndian(b)
    ensures a == b
  {
    if a != [] {
      var k := |a| - 1;
      assert a[k] == BigEndian(a) % 256 == b[k];
      BigEndianInjective(a[..k], b[..k]);
      assert a == a[..k] + [a[k]] && b == b[..k] + [b[k]];
    }
  }

  lemma {:induction false} BigEndianZeros(n: nat)
    ensures BigEndian(Zeros(n)) == 0
  {
    if n > 0 {
      assert Zeros(n)[..n - 1] == Zeros(n - 1);
      BigEndianZeros(n - 1);
    }
  }

  lemma BigEndianOfOne(o: byte)
    ensures BigEndian([o]) == o as nat
  {
    assert [o][..0] == [];
    assert BigEndian([o]) == 256 * BigEndian([o][..0]) + [o][0];
  }

  lemma BigEndianOfTwo(hi: byte, lo: byte)
    ensures BigEndian([hi, lo]) == 256 * hi + lo && BigEndian([lo]) == lo as nat
  {
    BigEndianOfOne(hi);
    BigEndianOfOne(lo);
    assert [hi, lo][..1] == [hi];
    assert BigEndian([hi, lo]) == 256 * BigEndian([hi, lo][..1]) + [hi, lo][1];
  }

  /** Exclusive or of the `bits` lowest binary digits. */
  function XorBits(a: nat, b: nat, bits: nat): (r: nat)
    ensures bits <= 8 ==> r < [1, 2, 4, 8, 16, 32, 64, 128, 256][bits]
  {
    if bits == 0 then 0
    else 2 * XorBits(a / 2, b / 2, bits - 1) + (if a % 2 == b % 2 then 0 else 1)
  }

  function XorOctet(a: byte, b: byte): byte {
    XorBits(a, b, 8)
  }

  /** Binary digit `k` of an octet, the lowest being digit 0. */
  function Digit(a: nat, k: nat): nat
    requires k < 8
  {
    a / [1, 2, 4, 8, 16, 32, 64, 128][k] % 2
  }

  lemma DigitOfHalf(a: nat, d: nat, k: nat)
    requires k < 8 && d < 2
    ensures k > 0 ==> Digit(2 * a + d, k) == Digit(a, k - 1) && Digit(2 * a + d, 0) == d
    ensures k == 0 ==> Digit(2 * a + d, k) == d
  {
  }

  lemma {:induction false} XorBitsDigit(a: nat, b: nat, bits: nat, k: nat)
    requires k < bits <= 8
    ensures Digit(XorBits(a, b, bits), k) == if Digit(a, k) != Digit(b, k) then 1 else 0
  {
    DigitOfHalf(a / 2, a % 2, k);
    DigitOfHalf(b / 2, b % 2, k);
    DigitOfHalf(XorBits(a / 2, b / 2, bits - 1), if a % 2 == b % 2 then 0 else 1, k);
    if k > 0 {
      XorBitsDigit(a / 2, b / 2, bits - 1, k - 1);
    }
  }

  /** A binary digit of the exclusive or is set exactly if it is set in one of the octets and not in the other. */
  lemma XorOctetDigits(a: byte, b: byte, k: nat)
    requires k < 8
    ensures Digit(XorOctet(a, b), k) == 1 <==> (Digit(a, k) == 1) != (Digit(b, k) == 1)
  {
    XorBitsDigit(a, b, 8, k);
  }

  lemma {:induction false} XorBitsTwice(a: nat, b: nat, bits: nat, bound: nat)
    requires bits <= 8 && bound == [1, 2, 4, 8, 16, 32, 64, 128, 256][bits] && b < bound
    ensures XorBits(a, XorBits(a, b, bits), bits) == b && XorBits(b, 0, bits) == b
  {
    if bits > 0 {
      XorBitsTwice(a / 2, b / 2, bits - 1, bound / 2);
      HalfOfXor(a, b, bits);
      HalfOfXor(a, XorBits(a, b, bits), bits);
      HalfOfXor(b, 0, bits);
    }
  }

  lemma {:induction false} HalfOfXor(a: nat, b: nat, bits: nat)
    requires bits > 0
    ensures XorBits(a, b, bits) / 2 == XorBits(a / 2, b / 2, bits - 1)
    ensures XorBits(a, b, bits) % 2 == if a % 2 == b % 2 then 0 else 1
  {
  }

  lemma XorTwice(a: seq<byte>, b: seq<byte>)
    requires |a| == |b|
    ensures Xor(a, Xor(a, b)) == b && Xor(b, Zeros(|b|)) == b
  {
    forall i | 0 <= i < |b|
      ensures Xor(a, Xor(a, b))[i] == b[i] && Xor(b, Zeros(|b|))[i] == b[i]
    {
      XorBitsTwice(a[i], b[i], 8, 256);
    }
  }

  lemma {:induction false} XorBitsCancel(a: nat, x: nat, y: nat, bits: nat, bound: nat)
    requires XorBits(a, x, bits) == XorBits(a, y, bits)
    requires bits <= 8 && bound == [1, 2, 4, 8, 16, 32, 64, 128, 256][bits] && x < bound && y < bound
    ensures x == y
  {
    if bits > 0 {
      XorBitsCancel(a / 2, x / 2, y / 2, bits - 1, bound / 2);
    }
  }

  lemma XorOctetCancels(a: byte, x: byte, y: byte)
    requires XorOctet(a, x) == XorOctet(a, y)
    ensures x == y
  {
    XorBitsCancel(a, x, y, 8, 256);
  }

  function Xor(a: seq<byte>, b: seq<byte>): (r: seq<byte>)
    requires |a| == |b|
    ensures |r| == |a|
  {
    seq(|a|, i requires 0 <= i < |a| => XorOctet(a[i], b[i]))
  }

  lemma XorCancels(a: seq<byte>, x: seq<byte>, y: seq<byte>)
    requires |a| == |x| == |y| && Xor(a, x) == Xor(a, y)
    ensures x == y
  {
    forall i | 0 <= i < |x|
      ensures x[i] == y[i]
    {
      assert Xor(a, x)[i] == Xor(a, y)[i];
      XorOctetCancels(a[i], x[i], y[i]);
    }
  }

  function Flatten(chunks: seq<seq<byte>>): seq<byte> {
    if chunks == [] then [] else chunks[0] + Flatten(chunks[1..])
  }

  lemma {:induction false} FlattenAppend(a: seq<seq<byte>>, b: seq<seq<byte>>)
    ensures Flatten(a + b) == Flatten(a) + Flatten(b)
  {
    if a == [] {
      assert a + b == b;
    } else {
      FlattenAppend(a[1..], b);
      assert (a + b)[1..] == a[1..] + b && (a + b)[0] == a[0];
      assert a[0] + (Flatten(a[1..]) + Flatten(b)) == (a[0] + Flatten(a[1..])) + Flatten(b);
    }
  }
}

/** Per-record nonces: the base nonce combined with a 96-bit record counter. */
module RecordNonces {
  import opened Octets

  const SEQ_LEN := 12
  const SEQ_MODULUS := 0x1_0000_0000_0000_0000_0000_0000

  /** The octets of the counter after one more record. */
  function Incremented(s: seq<byte>): (r: seq<byte>)
    ensures |r| == |s|
  {
    if s == [] then []
    else if s[|s| - 1] == 255 then Incremented(s[..|s| - 1]) + [0]
    else s[|s| - 1 := s[|s| - 1] + 1]
  }

  /** One step of the counter adds one, and wraps to zero after all octets were 255. */
  lemma {:induction false} IncrementAddsOne(s: seq<byte>)
    ensures BigEndian(Incremented(s)) == if BigEndian(s) + 1 == Pow256(|s|) then 0 else BigEndian(s) + 1
  {
    if s != [] {
      var k := |s| - 1;
      IncrementAddsOne(s[..k]);
      BigEndianBound(s[..k]);
      if s[k] == 255 {
        assert Incremented(s)[..k] == Incremented(s[..k]);
      } else {
        assert Incremented(s)[..k] == s[..k];
      }
    }
  }

  /** The counter once `n` records have been numbered, starting at zero. */
  function Counter(n: nat): (s: seq<byte>)
    ensures |s| == SEQ_LEN
  {
    if n == 0 then Zeros(SEQ_LEN) else Incremented(Counter(n - 1))
  }

  lemma Pow256OfTwelve()
    ensures Pow256(SEQ_LEN) == SEQ_MODULUS
  {
  }

  lemma ModuloStep(n: nat, m: nat)
    requires n > 0 && m > 0
    ensures n % m == if (n - 1) % m + 1 == m then 0 else (n - 1) % m + 1
  {
    var q, r := (n - 1) / m, (n - 1) % m;
    assert n - 1 == m * q + r;
    if r + 1 == m {
      assert n == m * (q + 1);
      MultipleModulo(q + 1, m);
    } else {
      RemainderUnique(n, q, m, r + 1);
    }
  }

  lemma MultipleModulo(q: nat, m: nat)
    requires m > 0
    ensures (m * q) % m == 0
  {
    RemainderUnique(m * q, q, m, 0);
  }

  lemma RemainderUnique(n: nat, q: nat, m: nat, r: nat)
    requires m > 0 && r < m && n == m * q + r
    ensures n % m == r && n / m == q
  {
    var d := n / m - q;
    assert m * d == r - n % m;
    ProductAtLeastFactor(m, d);
  }

  lemma ProductAtLeastFactor(m: nat, d: int)
    ensures d > 0 ==> m * d >= m
    ensures d < 0 ==> m * d + m <= 0
  {
  }

  /** After `n` records the twelve octets denote `n` modulo 2^96. */
  lemma {:induction false} CounterCountsRecords(n: nat)
    ensures BigEndian(Counter(n)) == n % SEQ_MODULUS
  {
    Pow256OfTwelve();
    if n == 0 {
      BigEndianZeros(SEQ_LEN);
    } else {
      CounterCountsRecords(n - 1);
      IncrementAddsOne(Counter(n - 1));
      ModuloStep(n, SEQ_MODULUS);
    }
  }

  /** The nonce of record `n` (counted from zero). */
  function NonceOf(base: seq<byte>, n: nat): (r: seq<byte>)
    requires |base| >= SEQ_LEN
    ensures |r| == SEQ_LEN
  {
    Xor(base[..SEQ_LEN], Counter(n))
  }

  /** Two records share a nonce exactly when their numbers agree modulo 2^96. */
  lemma NoncesRepeatExactly(base: seq<byte>, i: nat, j: nat)
    requires |base| >= SEQ_LEN
    ensures NonceOf(base, i) == NonceOf(base, j) <==> i % SEQ_MODULUS == j % SEQ_MODULUS
  {
    CounterCountsRecords(i);
    CounterCountsRecords(j);
    if NonceOf(base, i) == NonceOf(base, j) {
      XorCancels(base[..SEQ_LEN], Counter(i), Counter(j));
    }
    if i % SEQ_MODULUS == j % SEQ_MODULUS {
      BigEndianInjective(Counter(i), Counter(j));
    }
  }

  /** The first record is sealed under the base nonce itself, and any nonce differs from the base nonce by the
      number of its record. */
  lemma NonceCarriesNumber(base: seq<byte>, n: nat)
    requires |base| >= SEQ_LEN
    ensures NonceOf(base, 0) == base[..SEQ_LEN]
    ensures BigEndian(Xor(base[..SEQ_LEN], NonceOf(base, n))) == n % SEQ_MODULUS
  {
    XorTwice(base[..SEQ_LEN], Counter(n));
    XorTwice(base[..SEQ_LEN], base[..SEQ_LEN]);
    CounterCountsRecords(n);
  }

  /** Compute the nonce of the current record, then step the counter in place. */
  method RecordNonce(nonce: seq<byte>, seqNo: array<byte>) returns (recordNonce: seq<byte>)
    requires |nonce| >= SEQ_LEN && seqNo.Length == SEQ_LEN
    modifies seqNo
    ensures recordNonce == Xor(nonce[..SEQ_LEN], old(seqNo[..]))
    ensures seqNo[..] == Incremented(old(seqNo[..]))
  {
    hide Incremented, XorOctet;
    var out := new byte[SEQ_LEN](_ => 0);
    var i := seqNo.Length;
    while i > 0
      invariant 0 <= i <= SEQ_LEN
      invariant seqNo[..] == old(seqNo[..])
      invariant forall k :: i <= k < SEQ_LEN ==> out[k] == XorOctet(nonce[k], seqNo[k])
    {
      i := i - 1;
      out[i] := XorOctet(nonce[i], seqNo[i]);
    }
    recordNonce := out[..];

    i := seqNo.Length;
    ghost var was := old(seqNo[..]);
    assert seqNo[..] == was && was[..i] == was;
    while i > 0
      invariant 0 <= i <= SEQ_LEN
      invariant seqNo[..i] == was[..i]
      invariant Incremented(was) == Incremented(was[..i]) + seqNo[i..]
    {
      i := i - 1;
      IncrementedStep(was[..i + 1]);
      assert was[..i + 1][..i] == was[..i];
      assert seqNo[i] == was[i] by { assert seqNo[..i + 1][i] == was[..i + 1][i]; }
      ghost var tail := seqNo[i + 1..];
      if seqNo[i] == 255 {
        seqNo[i] := 0;
        assert seqNo[i..] == [0] + tail;
      } else {
        seqNo[i] := seqNo[i] + 1;
        assert seqNo[i..] == [was[i] + 1] + tail;
        assert seqNo[..] == seqNo[..i] + seqNo[i..];
        break;
      }
    }
    assert was[..0] == [];
  }

  lemma {:induction false} IncrementedStep(s: seq<byte>)
    requires s != []
    ensures var (front, last) := (s[..|s| - 1], s[|s| - 1]);
      Incremented(s) == if last == 255 then Incremented(front) + [0] else front + [last + 1]
  {
    var k := |s| - 1;
    if s[k] != 255 {
      assert s[k := s[k] + 1] == s[..k] + [s[k] + 1];
    }
  }
}

/** Chunking, padding and sealing of a payload, and the reader that undoes it. */
module RecordLayer {
  import opened Common
  import opened Octets
  import opened RecordNonces

  const TAG_LEN := 16

  /** An authenticated cipher: `seal` gives the ciphertext and its tag, `open` undoes it or refuses. */
  datatype Aead = Aead(
    seal: (seq<byte>, seq<byte>, seq<byte>) -> (seq<byte>, seq<byte>),
    open: (seq<byte>, seq<byte>, seq<byte>, seq<byte>) -> Option<seq<byte>>)

  ghost predicate Sound(aead: Aead) {
    && (forall k, n, p :: |aead.seal(k, n, p).0| == |p| && |aead.seal(k, n, p).1| == TAG_LEN)
    && (forall k, n, p :: aead.open(k, n, aead.seal(k, n, p).0, aead.seal(k, n, p).1) == Some(p))
    && (forall k, n, c, t :: aead.open(k, n, c, t).Some? ==> |aead.open(k, n, c, t).value| == |c|)
  }

  /** What both ends have derived: cipher, content key and base nonce; `hasAuth` selects two padding octets. */
  datatype Session = Session(aead: Aead, key: seq<byte>, nonce: seq<byte>, hasAuth: bool) {
    predicate Valid() {
      |nonce| >= SEQ_LEN
    }

    function PadLen(): nat {
      if hasAuth then 2 else 1
    }

    /** Record number `n` on the wire: ciphertext followed by tag. */
    function Sealed(plain: seq<byte>, n: nat): seq<byte>
      requires Valid()
    {
      var (c, t) := aead.seal(key, NonceOf(nonce, n), plain);
      c + t
    }

    /** The records on the wire, numbered from `n`. */
    function SealAll(plains: seq<seq<byte>>, n: nat): (r: seq<seq<byte>>)
      requires Valid()
      ensures |r| == |plains|
    {
      if plains == [] then [] else [Sealed(plains[0], n)] + SealAll(plains[1..], n + 1)
    }

    lemma {:induction false} SealAllAt(plains: seq<seq<byte>>, n: nat, i: nat)
      requires Valid() && i < |plains|
      ensures SealAll(plains, n)[i] == Sealed(plains[i], n + i)
    {
      if i > 0 {
        SealAllAt(plains[1..], n + 1, i - 1);
      }
    }
  }

  function Min(a: nat, b: nat): nat { if a <= b then a else b }

  // ---------------------------------------------------------------- writer

  /** The plaintext records of a payload: each starts with `pad` zero octets, each but the last is full. */
  function Plaintexts(payload: seq<byte>, pad: nat, recordSize: nat): (r: seq<seq<byte>>)
    requires pad < recordSize
    ensures r != []
    decreases |payload|
  {
    if pad + |payload| < recordSize then [Zeros(pad) + payload]
    else [Zeros(pad) + payload[..recordSize - pad]] + Plaintexts(payload[recordSize - pad..], pad, recordSize)
  }

  /** The wire records still to be written when `left` is the unread input; `done` says the loop is over. */
  function Pending(left: seq<byte>, done: bool, session: Session, recordSize: nat, n: nat): seq<seq<byte>>
    requires session.Valid() && recordSize > 2
  {
    if done then [] else session.SealAll(Plaintexts(left, session.PadLen(), recordSize), n)
  }

  /** One turn of the writer's loop takes the first record off what is pending. */
  lemma WriterStep(left: seq<byte>, raw: seq<byte>, chunk: seq<byte>, rest: seq<byte>,
                   session: Session, recordSize: nat, n: nat)
    requires session.Valid() && recordSize > 2
    requires raw == Zeros(session.PadLen()) + left
    requires chunk == raw[..Min(recordSize, |raw|)] && rest == raw[Min(recordSize, |raw|)..]
    ensures Pending(left, false, session, recordSize, n)
         == [session.Sealed(chunk, n)]
            + Pending(rest, rest == [] && |chunk| < recordSize, session, recordSize, n + 1)
    ensures |rest| < |left| || (rest == [] && |chunk| < recordSize)
  {
    var p := session.PadLen();
    var plains := Plaintexts(left, p, recordSize);
    if p + |left| < recordSize {
      assert chunk == Zeros(p) + left;
      assert plains[1..] == [];
    } else {
      assert rest == left[recordSize - p..] && chunk == Zeros(p) + left[..recordSize - p];
      assert plains[1..] == Plaintexts(rest, p, recordSize);
    }
  }

  /** The zero octets that announce an empty padding, inserted one by one at the front. */
  method InsertPadding(input: seq<byte>, session: Session) returns (rawInput: seq<byte>)
    ensures rawInput == Zeros(session.PadLen()) + input
  {
    rawInput := [0] + input;
    if session.hasAuth { rawInput := [0] + rawInput; }
  }

  /** Seal one chunk under the nonce of the current record and append the tag. */
  method SealRecord(chunk: seq<byte>, session: Session, seqNo: array<byte>, ghost n: nat) returns (record: seq<byte>)
    requires session.Valid() && seqNo.Length == SEQ_LEN && seqNo[..] == Counter(n)
    modifies seqNo
    ensures record == session.Sealed(chunk, n) && seqNo[..] == Counter(n + 1)
  {
    var recordNonce := RecordNonce(session.nonce, seqNo);
    var (out, tag) := session.aead.seal(session.key, recordNonce, chunk);
    record := out + tag;
  }

  /** The body of the writer's loop. */
  method WriteRecord(left: seq<byte>, session: Session, recordSize: nat, seqNo: array<byte>, ghost n: nat)
    returns (record: seq<byte>, rawInput: seq<byte>, padding: bool)
    requires session.Valid() && recordSize > 2
    requires seqNo.Length == SEQ_LEN && seqNo[..] == Counter(n)
    modifies seqNo
    ensures seqNo[..] == Counter(n + 1)
    ensures Pending(left, false, session, recordSize, n)
         == [record] + Pending(rawInput, rawInput == [] && !padding, session, recordSize, n + 1)
    ensures padding ==> rawInput == []
    ensures |rawInput| < |left| || (rawInput == [] && !padding)
  {
    var raw := InsertPadding(left, session);
    var bound := if recordSize < |raw| then recordSize else |raw|;
    var chunk := raw[..bound];
    rawInput := raw[bound..];
    padding := bound == recordSize && rawInput == [];
    WriterStep(left, raw, chunk, rawInput, session, recordSize, n);
    record := SealRecord(chunk, session, seqNo, n);
  }

  method Encrypt(payload: seq<byte>, session: Session, recordSize: nat) returns (out: seq<byte>)
    requires session.Valid()
    requires payload != [] && recordSize > 2
    ensures out == Flatten(session.SealAll(Plaintexts(payload, session.PadLen(), recordSize), 0))
  {
    hide Flatten, Xor;
    ghost var goal := Pending(payload, false, session, recordSize, 0);
    var seqNo := new byte[SEQ_LEN](_ => 0);
    var rawInput := payload;
    var chunks: seq<seq<byte>> := [];
    var padding := false;
    assert seqNo[..] == Counter(0);

    while rawInput != [] || padding
      invariant fresh(seqNo) && seqNo[..] == Counter(|chunks|)
      invariant goal == chunks + Pending(rawInput, rawInput == [] && !padding, session, recordSize, |chunks|)
      invariant padding ==> rawInput == []
      decreases |rawInput|, padding
    {
      ghost var done := chunks;
      var record;
      record, rawInput, padding := WriteRecord(rawInput, session, recordSize, seqNo, |chunks|);
      chunks := chunks + [record];
      AppendFirst(done, record,
        Pending(rawInput, rawInput == [] && !padding, session, recordSize, |chunks|));
    }
    assert chunks + [] == chunks;
    out := Flatten(chunks);
  }

  lemma AppendFirst(done: seq<seq<byte>>, first: seq<byte>, rest: seq<seq<byte>>)
    ensures done + ([first] + rest) == (done + [first]) + rest
  {
  }

  // ---------------------------------------------------------------- reader

  /** `Panicked`: removing more padding than the record holds aborts the reader. */
  datatype ReadResult = Plain(text: seq<byte>) | Rejected | Panicked

  function Prepend(text: seq<byte>, r: ReadResult): ReadResult {
    if r.Plain? then Plain(text + r.text) else r
  }

  /** Strip the length octets and the padding they announce. */
  function Unpad(plain: seq<byte>, pad: nat): ReadResult {
    if |plain| < pad then Panicked
    else
      var paddingLen := BigEndian(plain[..pad]);
      if |plain| - pad < paddingLen then Panicked else Plain(plain[pad + paddingLen..])
  }

  /** What a reader configured with `recordSize` makes of `input`, whose first record has number `n`. */
  function ReadFrom(input: seq<byte>, session: Session, recordSize: nat, n: nat): ReadResult
    requires session.Valid()
    decreases |input|
  {
    if input == [] then Plain([])
    else
      var bound := Min(recordSize, |input|);
      if bound <= TAG_LEN then Rejected
      else
        var chunk, tag := input[..bound - TAG_LEN], input[bound - TAG_LEN..bound];
        match session.aead.open(session.key, NonceOf(session.nonce, n), chunk, tag)
        case None => Rejected
        case Some(plain) =>
          match Unpad(plain, session.PadLen())
          case Plain(text) => Prepend(text, ReadFrom(input[bound..], session, recordSize, n + 1))
          case failed => failed
  }

  /** One turn of the reader's loop. */
  lemma ReaderStep(input: seq<byte>, session: Session, recordSize: nat, n: nat)
    requires session.Valid() && input != [] && Min(recordSize, |input|) > TAG_LEN
    ensures var bound := Min(recordSize, |input|) - TAG_LEN;
      ReadFrom(input, session, recordSize, n)
      == match session.aead.open(session.key, NonceOf(session.nonce, n), input[..bound], input[bound..bound + TAG_LEN])
         case None => Rejected
         case Some(plain) =>
           if Unpad(plain, session.PadLen()).Panicked? then Panicked
           else Prepend(Unpad(plain, session.PadLen()).text,
                        ReadFrom(input[bound + TAG_LEN..], session, recordSize, n + 1))
  {
  }

  lemma PrependTwice(a: seq<byte>, b: seq<byte>, r: ReadResult)
    ensures Prepend(a, Prepend(b, r)) == Prepend(a + b, r)
  {
  }

  /** Remove the length octets and the padding from the front of a decrypted record. */
  method StripPadding(plain: seq<byte>, padLen: nat) returns (r: ReadResult)
    ensures r == Unpad(plain, padLen)
  {
    var output := plain;
    if |output| < padLen {
      return Panicked;
    }
    var paddingLen := BigEndian(output[..padLen]);
    output := output[padLen..];
    if |output| < paddingLen {
      return Panicked;
    }
    output := output[paddingLen..];
    r := Plain(output);
  }

  /** Open one record under the nonce of the current record. */
  method OpenRecord(chunk: seq<byte>, tag: seq<byte>, session: Session, seqNo: array<byte>, ghost n: nat)
    returns (plain: Option<seq<byte>>)
    requires session.Valid() && seqNo.Length == SEQ_LEN && seqNo[..] == Counter(n)
    modifies seqNo
    ensures plain == session.aead.open(session.key, NonceOf(session.nonce, n), chunk, tag)
    ensures seqNo[..] == Counter(n + 1)
  {
    var recordNonce := RecordNonce(session.nonce, seqNo);
    plain := session.aead.open(session.key, recordNonce, chunk, tag);
  }

  /** The body of the reader's loop: the text of one record and the input after it. */
  method ReadRecord(input: seq<byte>, session: Session, recordSize: nat, seqNo: array<byte>, ghost n: nat)
    returns (text: ReadResult, rest: seq<byte>)
    requires session.Valid() && input != []
    requires seqNo.Length == SEQ_LEN && seqNo[..] == Counter(n)
    modifies seqNo
    ensures text.Plain? ==> seqNo[..] == Counter(n + 1) && |rest| < |input|
    ensures ReadFrom(input, session, recordSize, n)
         == if text.Plain? then Prepend(text.text, ReadFrom(rest, session, recordSize, n + 1)) else text
  {
    var bound := if recordSize < |input| then recordSize else |input|;
    if bound <= TAG_LEN {
      return Rejected, input;
    }
    bound := bound - TAG_LEN;
    var chunk := input[..bound];
    rest := input[bound..];
    var tag := rest[..TAG_LEN];
    rest := rest[TAG_LEN..];
    assert tag == input[bound..bound + TAG_LEN] && rest == input[bound + TAG_LEN..];
    ReaderStep(input, session, recordSize, n);
    var plain := OpenRecord(chunk, tag, session, seqNo, n);

    TruncationTestNeverFires(input, recordSize);
    assert bound != recordSize;

    if plain.None? {
      return Rejected, rest;
    }
    text := StripPadding(plain.value, session.PadLen());
  }

  method Decrypt(stream: seq<byte>, session: Session, recordSize: nat, validUtf8: seq<byte> -> bool)
    returns (r: ReadResult)
    requires session.Valid()
    ensures r == var text := ReadFrom(stream, session, recordSize, 0);
                 if text.Plain? && !validUtf8(text.text) then Rejected else text
  {
    var seqNo := new byte[SEQ_LEN](_ => 0);
    assert seqNo[..] == Counter(0);
    var input := stream;
    var chunks: seq<seq<byte>> := [];
    ghost var goal := ReadFrom(stream, session, recordSize, 0);
    PrependNothing(goal);
    while input != []
      invariant fresh(seqNo) && seqNo[..] == Counter(|chunks|)
      invariant goal == Prepend(Flatten(chunks), ReadFrom(input, session, recordSize, |chunks|))
      decreases |input|
    {
      ghost var done := chunks;
      var text;
      text, input := ReadRecord(input, session, recordSize, seqNo, |chunks|);
      if !text.Plain? {
        return text;
      }
      chunks := chunks + [text.text];
      FlattenLast(done, text.text);
      PrependTwice(Flatten(done), text.text, ReadFrom(input, session, recordSize, |chunks|));
    }
    var out := Flatten(chunks);
    assert out + [] == out;
    r := if validUtf8(out) then Plain(out) else Rejected;
  }

  lemma PrependNothing(r: ReadResult)
    ensures Prepend(Flatten([]), r) == r
  {
  }

  lemma FlattenLast(chunks: seq<seq<byte>>, last: seq<byte>)
    ensures Flatten(chunks + [last]) == Flatten(chunks) + last
  {
    FlattenAppend(chunks, [last]);
    assert Flatten([last]) == last + [] == last;
  }

  // ---------------------------------------------------------------- properties

  lemma QuotientStep(n: nat, q: nat)
    requires q > 0 && n >= q
    ensures n / q == (n - q) / q + 1
  {
    var k, r := (n - q) / q, (n - q) % q;
    assert n == q * (k + 1) + r;
    RemainderUnique(n, k + 1, q, r);
  }

  function TotalLength(chunks: seq<seq<byte>>): nat {
    if chunks == [] then 0 else |chunks[0]| + TotalLength(chunks[1..])
  }

  lemma {:induction false} FlattenLength(chunks: seq<seq<byte>>)
    ensures |Flatten(chunks)| == TotalLength(chunks)
  {
    if chunks != [] {
      FlattenLength(chunks[1..]);
    }
  }

  lemma ProductStep(a: int, b: int)
    ensures a * (b + 1) == a * b + a
  {
  }

  /** Every plaintext record but the last is full, and the last is not. */
  lemma {:induction false} PlaintextSizes(payload: seq<byte>, pad: nat, recordSize: nat)
    requires pad < recordSize
    ensures var plains := Plaintexts(payload, pad, recordSize);
      && (forall i :: 0 <= i < |plains| - 1 ==> |plains[i]| == recordSize)
      && pad <= |plains[|plains| - 1]| < recordSize
    decreases |payload|
  {
    var plains, q := Plaintexts(payload, pad, recordSize), recordSize - pad;
    if |payload| >= q {
      PlaintextSizes(payload[q..], pad, recordSize);
      var rest := Plaintexts(payload[q..], pad, recordSize);
      assert plains == [Zeros(pad) + payload[..q]] + rest;
      forall i | 0 <= i < |plains| - 1
        ensures |plains[i]| == recordSize
      {
        if i > 0 { assert plains[i] == rest[i - 1]; }
      }
    }
  }

  /** One record per `recordSize - pad` octets of payload, and one more. */
  lemma {:induction false} PlaintextCount(payload: seq<byte>, pad: nat, recordSize: nat)
    requires pad < recordSize
    ensures |Plaintexts(payload, pad, recordSize)| == |payload| / (recordSize - pad) + 1
    decreases |payload|
  {
    var q := recordSize - pad;
    if |payload| < q {
      RemainderUnique(|payload|, 0, q, |payload|);
    } else {
      PlaintextCount(payload[q..], pad, recordSize);
      QuotientStep(|payload|, q);
    }
  }

  /** Padding is all that is added to the payload. */
  lemma {:induction false} PlaintextTotal(payload: seq<byte>, pad: nat, recordSize: nat)
    requires pad < recordSize
    ensures TotalLength(Plaintexts(payload, pad, recordSize))
         == |payload| + pad * |Plaintexts(payload, pad, recordSize)|
    decreases |payload|
  {
    var plains, q := Plaintexts(payload, pad, recordSize), recordSize - pad;
    if |payload| < q {
      assert plains[1..] == [];
    } else {
      var rest := Plaintexts(payload[q..], pad, recordSize);
      PlaintextTotal(payload[q..], pad, recordSize);
      assert plains[1..] == rest;
      ProductStep(pad, |rest|);
    }
  }

  lemma {:induction false} SealedTotal(plains: seq<seq<byte>>, session: Session, n: nat)
    requires session.Valid() && Sound(session.aead)
    ensures TotalLength(session.SealAll(plains, n)) == TotalLength(plains) + TAG_LEN * |plains|
  {
    if plains != [] {
      SealedTotal(plains[1..], session, n + 1);
    }
  }

  /** Wire layout of an encrypted payload, as drafts of the aesgcm content encoding lay it out. */
  lemma RecordLayout(payload: seq<byte>, session: Session, recordSize: nat)
    requires session.Valid() && Sound(session.aead) && recordSize > 2
    ensures var p := session.PadLen();
            var wire := session.SealAll(Plaintexts(payload, p, recordSize), 0);
      && |wire| == |payload| / (recordSize - p) + 1
      && (forall i :: 0 <= i < |wire| - 1 ==> |wire[i]| == recordSize + TAG_LEN)
      && |wire[|wire| - 1]| < recordSize + TAG_LEN
      && |Flatten(wire)| == |payload| + (p + TAG_LEN) * |wire|
  {
    var p := session.PadLen();
    var plains := Plaintexts(payload, p, recordSize);
    var wire := session.SealAll(plains, 0);
    PlaintextSizes(payload, p, recordSize);
    PlaintextCount(payload, p, recordSize);
    PlaintextTotal(payload, p, recordSize);
    SealedTotal(plains, session, 0);
    FlattenLength(wire);
    forall i | 0 <= i < |wire|
      ensures |wire[i]| == |plains[i]| + TAG_LEN
    {
      session.SealAllAt(plains, 0, i);
    }
    Distribute(p, TAG_LEN, |wire|);
  }

  lemma Distribute(a: int, b: int, n: int)
    ensures (a + b) * n == a * n + b * n
  {
  }

  /** How many octets `k` records can carry. */
  function Capacity(k: nat, perRecord: nat): nat {
    k * perRecord
  }

  lemma CapacityStep(k: nat, perRecord: nat)
    ensures Capacity(0, perRecord) == 0
    ensures k > 0 ==> Capacity(k, perRecord) == perRecord + Capacity(k - 1, perRecord)
  {
    if k > 0 {
      ProductStep(perRecord, k - 1);
    }
  }

  /** Chunks of one length lie side by side. */
  lemma {:induction false} FlattenAt(chunks: seq<seq<byte>>, length: nat, i: nat)
    requires i < |chunks| && forall j :: 0 <= j < i ==> |chunks[j]| == length
    ensures Capacity(i, length) + |chunks[i]| <= |Flatten(chunks)|
    ensures Flatten(chunks)[Capacity(i, length)..][..|chunks[i]|] == chunks[i]
  {
    hide Capacity;
    CapacityStep(i, length);
    if i > 0 {
      FlattenAt(chunks[1..], length, i - 1);
      var (first, rest) := (chunks[0], Flatten(chunks[1..]));
      assert (first + rest)[length + Capacity(i - 1, length)..] == rest[Capacity(i - 1, length)..];
    }
  }

  /** The part of the payload that a record carries which starts at this octet of it. */
  function PieceFrom(payload: seq<byte>, from: nat, perRecord: nat): seq<byte>
    requires from <= |payload|
  {
    payload[from..][..Min(perRecord, |payload| - from)]
  }

  lemma PieceLater(payload: seq<byte>, from: nat, perRecord: nat)
    requires perRecord + from <= |payload|
    ensures PieceFrom(payload, perRecord + from, perRecord) == PieceFrom(payload[perRecord..], from, perRecord)
  {
    assert payload[perRecord..][from..] == payload[perRecord + from..];
  }

  lemma {:induction false} PlaintextAt(payload: seq<byte>, pad: nat, recordSize: nat, i: nat)
    requires pad < recordSize && i < |Plaintexts(payload, pad, recordSize)|
    ensures var q := recordSize - pad;
      && Capacity(i, q) <= |payload|
      && Plaintexts(payload, pad, recordSize)[i] == Zeros(pad) + PieceFrom(payload, Capacity(i, q), q)
    decreases |payload|
  {
    hide Capacity;
    var q := recordSize - pad;
    CapacityStep(i, q);
    if i > 0 {
      hide PieceFrom;
      PlaintextAt(payload[q..], pad, recordSize, i - 1);
      PieceLater(payload, Capacity(i - 1, q), q);
    } else {
      assert payload[0..][..Min(q, |payload|)] == if pad + |payload| < recordSize then payload else payload[..q];
    }
  }

  /** The wire format, record by record: there is one record for each full one and one more, and record `i`
      lies at octet `i * (recordSize + 16)`. It is the ciphertext and the tag of two zero octets, or one without
      authentication, and the next `recordSize - 2` or `recordSize - 1` octets of payload, sealed with the
      content key and the nonce of record `i`. */
  lemma RecordOnWire(payload: seq<byte>, session: Session, recordSize: nat, i: nat)
    requires session.Valid() && Sound(session.aead) && recordSize > 2
    requires i <= |payload| / (recordSize - if session.hasAuth then 2 else 1)
    ensures var zeros := if session.hasAuth then [0, 0] else [0];
      var out := Flatten(session.SealAll(Plaintexts(payload, session.PadLen(), recordSize), 0));
      var (q, at) := (recordSize - |zeros|, Capacity(i, recordSize + 16));
      && Capacity(i, q) <= |payload|
      && var (c, t) := session.aead.seal(session.key, NonceOf(session.nonce, i),
                                         zeros + PieceFrom(payload, Capacity(i, q), q));
         |t| == 16 && at + |c| + 16 <= |out| && out[at..][..|c| + 16] == c + t
  {
    hide *;
    ZerosOf(session);
    var pad := session.PadLen();
    var plains := Plaintexts(payload, pad, recordSize);
    var wire := session.SealAll(plains, 0);
    PlaintextCount(payload, pad, recordSize);
    PlaintextAt(payload, pad, recordSize, i);
    WireSizes(payload, session, recordSize);
    session.SealAllAt(plains, 0, i);
    FlattenAt(wire, recordSize + 16, i);
    SealedParts(session, plains[i], i);
  }

  lemma ZerosOf(session: Session)
    ensures Zeros(session.PadLen()) == if session.hasAuth then [0, 0] else [0]
    ensures session.PadLen() == if session.hasAuth then 2 else 1
  {
  }

  lemma SealedParts(session: Session, plain: seq<byte>, n: nat)
    requires session.Valid() && Sound(session.aead)
    ensures var (c, t) := session.aead.seal(session.key, NonceOf(session.nonce, n), plain);
      session.Sealed(plain, n) == c + t && |t| == 16
  {
  }

  lemma WireSizes(payload: seq<byte>, session: Session, recordSize: nat)
    requires session.Valid() && Sound(session.aead) && recordSize > 2
    ensures var wire := session.SealAll(Plaintexts(payload, session.PadLen(), recordSize), 0);
      forall i :: 0 <= i < |wire| - 1 ==> |wire[i]| == recordSize + 16
  {
    RecordLayout(payload, session, recordSize);
  }

  lemma {:induction false} UnpadZeros(pad: nat, text: seq<byte>)
    ensures Unpad(Zeros(pad) + text, pad) == Plain(text)
  {
    assert (Zeros(pad) + text)[..pad] == Zeros(pad);
    BigEndianZeros(pad);
    assert (Zeros(pad) + text)[pad..] == text;
  }

  /** Reading one record off the front of a stream that starts with it. */
  lemma ReadOneRecord(text: seq<byte>, rest: seq<byte>, session: Session, recordSize: nat, n: nat)
    requires session.Valid() && Sound(session.aead)
    requires var len := session.PadLen() + |text| + TAG_LEN; len == recordSize || (len < recordSize && rest == [])
    ensures ReadFrom(session.Sealed(Zeros(session.PadLen()) + text, n) + rest, session, recordSize, n)
         == Prepend(text, ReadFrom(rest, session, recordSize, n + 1))
  {
    var plain := Zeros(session.PadLen()) + text;
    var (c, t) := session.aead.seal(session.key, NonceOf(session.nonce, n), plain);
    var input := session.Sealed(plain, n) + rest;
    var bound := |plain| + TAG_LEN;
    assert Min(recordSize, |input|) == bound;
    assert input[..bound - TAG_LEN] == c && input[bound - TAG_LEN..bound] == t && input[bound..] == rest;
    UnpadZeros(session.PadLen(), text);
  }

  /** The reader takes any padding off: a record whose plaintext starts with two octets, or one without
      authentication, that announce the length of a padding is read as what follows that padding; the reader
      breaks down if the record is shorter than that. */
  lemma ReadsPaddedRecord(hi: byte, lo: byte, padding: seq<byte>, text: seq<byte>, session: Session, n: nat)
    requires session.Valid() && Sound(session.aead)
    ensures var (announced, length) := if session.hasAuth then ([hi, lo], 256 * hi + lo) else ([lo], lo as nat);
      && (|padding| == length ==>
            ReadFrom(session.Sealed(announced + padding + text, n), session, |announced + padding + text| + 16, n)
            == Plain(text))
      && (|padding| < length ==>
            ReadFrom(session.Sealed(announced + padding, n), session, |announced + padding| + 16, n) == Panicked)
  {
    hide ReadFrom, Unpad, BigEndian;
    var announced := if session.hasAuth then [hi, lo] else [lo];
    UnpadsAnnounced(hi, lo, padding, text, session.hasAuth);
    UnpadsAnnounced(hi, lo, padding, [], session.hasAuth);
    assert announced + padding + [] == announced + padding;
    ReadsSealed(announced + padding + text, session, n);
    ReadsSealed(announced + padding, session, n);
    assert Prepend(text, Plain([])) == Plain(text) by { assert text + [] == text; }
  }

  /** What is left of a stream is refused if it, or the record size, is not more than a tag. */
  lemma RefusesBareTag(input: seq<byte>, session: Session, recordSize: nat, n: nat)
    requires session.Valid() && input != [] && (|input| <= 16 || recordSize <= 16)
    ensures ReadFrom(input, session, recordSize, n) == Rejected
  {
  }

  lemma UnpadsAnnounced(hi: byte, lo: byte, padding: seq<byte>, text: seq<byte>, hasAuth: bool)
    ensures var (announced, length) := if hasAuth then ([hi, lo], 256 * hi + lo) else ([lo], lo as nat);
      && (|padding| == length ==> Unpad(announced + padding + text, |announced|) == Plain(text))
      && (|padding| + |text| < length ==> Unpad(announced + padding + text, |announced|) == Panicked)
  {
    var announced := if hasAuth then [hi, lo] else [lo];
    var plain := announced + padding + text;
    assert plain[..|announced|] == announced;
    BigEndianOfTwo(hi, lo);
    if |padding| == BigEndian(announced) {
      assert plain[|announced| + |padding|..] == text;
    }
  }

  /** A lone record is opened as it was sealed. */
  lemma ReadsSealed(plain: seq<byte>, session: Session, n: nat)
    requires session.Valid() && Sound(session.aead) && plain != []
    ensures var r := Unpad(plain, session.PadLen());
      ReadFrom(session.Sealed(plain, n), session, |plain| + TAG_LEN, n) == if r.Plain? then Prepend(r.text, Plain([])) else r
  {
    var (c, t) := session.aead.seal(session.key, NonceOf(session.nonce, n), plain);
    var input := session.Sealed(plain, n);
    assert input[..|plain|] == c && input[|plain|..|plain| + TAG_LEN] == t && input[|plain| + TAG_LEN..] == [];
  }

  /** How much of a payload of `length` octets the first `k` records carry. */
  function Carried(length: nat, k: nat, perRecord: nat): (c: nat)
    ensures c <= length
  {
    if k == 0 then 0
    else if length < perRecord then length
    else perRecord + Carried(length - perRecord, k - 1, perRecord)
  }

  lemma {:induction false} CarriedIsProduct(length: nat, k: nat, perRecord: nat)
    requires perRecord > 0
    ensures Carried(length, k, perRecord) == Min(length, Capacity(k, perRecord))
  {
    if k > 0 {
      ProductStep(perRecord, k - 1);
      if length < perRecord {
        ProductAtLeastFactor(perRecord, k);
      } else {
        CarriedIsProduct(length - perRecord, k - 1, perRecord);
      }
    }
  }

  /** The pieces of a payload that its records carry. */
  function Pieces(payload: seq<byte>, perRecord: nat): (r: seq<seq<byte>>)
    requires perRecord > 0
    ensures r != []
    decreases |payload|
  {
    if |payload| < perRecord then [payload]
    else [payload[..perRecord]] + Pieces(payload[perRecord..], perRecord)
  }

  function Padded(texts: seq<seq<byte>>, pad: nat): (r: seq<seq<byte>>)
    ensures |r| == |texts|
  {
    if texts == [] then [] else [Zeros(pad) + texts[0]] + Padded(texts[1..], pad)
  }

  lemma {:induction false} PlaintextsArePaddedPieces(payload: seq<byte>, pad: nat, recordSize: nat)
    requires pad < recordSize
    ensures Plaintexts(payload, pad, recordSize) == Padded(Pieces(payload, recordSize - pad), pad)
    decreases |payload|
  {
    var q := recordSize - pad;
    if |payload| >= q {
      PlaintextsArePaddedPieces(payload[q..], pad, recordSize);
      assert Pieces(payload, q)[1..] == Pieces(payload[q..], q);
    }
  }

  lemma {:induction false} PaddedPrefix(texts: seq<seq<byte>>, pad: nat, k: nat)
    requires k <= |texts|
    ensures Padded(texts, pad)[..k] == Padded(texts[..k], pad)
  {
    if k > 0 {
      PaddedPrefix(texts[1..], pad, k - 1);
      assert texts[..k][1..] == texts[1..][..k - 1];
    }
  }

  /** Each text but the last fills its record, and the last does not exceed it. */
  predicate Fills(texts: seq<seq<byte>>, perRecord: nat) {
    texts == [] || (if |texts| == 1 then |texts[0]| <= perRecord
                    else |texts[0]| == perRecord && Fills(texts[1..], perRecord))
  }

  lemma {:induction false} PiecesFill(payload: seq<byte>, perRecord: nat, k: nat)
    requires perRecord > 0 && k <= |Pieces(payload, perRecord)|
    ensures Fills(Pieces(payload, perRecord)[..k], perRecord)
    decreases |payload|
  {
    var pieces := Pieces(payload, perRecord);
    if k > 0 && |payload| >= perRecord {
      PiecesFill(payload[perRecord..], perRecord, k - 1);
      assert pieces[..k][1..] == Pieces(payload[perRecord..], perRecord)[..k - 1];
    }
  }

  lemma {:induction false} PiecesCarry(payload: seq<byte>, perRecord: nat, k: nat)
    requires perRecord > 0 && k <= |Pieces(payload, perRecord)|
    ensures Flatten(Pieces(payload, perRecord)[..k]) == payload[..Carried(|payload|, k, perRecord)]
    decreases |payload|
  {
    var pieces := Pieces(payload, perRecord);
    if k == 0 {
    } else if |payload| < perRecord {
      assert pieces[..k] == [payload] && Flatten(pieces[..k]) == payload + [];
    } else {
      var later := payload[perRecord..];
      PiecesCarry(later, perRecord, k - 1);
      assert pieces[..k][0] == payload[..perRecord] && pieces[..k][1..] == Pieces(later, perRecord)[..k - 1];
      TakeInTwo(payload, perRecord, Carried(|later|, k - 1, perRecord));
    }
  }

  lemma TakeInTwo<T>(s: seq<T>, q: nat, m: nat)
    requires q + m <= |s|
    ensures s[..q] + s[q..][..m] == s[..q + m]
  {
  }

  /** The reader undoes the sealing of any texts that fill their records. */
  lemma {:induction false} ReadsTexts(texts: seq<seq<byte>>, session: Session, recordSize: nat, n: nat)
    requires session.Valid() && Sound(session.aead) && recordSize > 2
    requires Fills(texts, recordSize - session.PadLen())
    ensures ReadFrom(Flatten(session.SealAll(Padded(texts, session.PadLen()), n)), session, recordSize + TAG_LEN, n)
         == Plain(Flatten(texts))
  {
    if texts != [] {
      var plains := Padded(texts, session.PadLen());
      ReadsTexts(texts[1..], session, recordSize, n + 1);
      FlattenSealedFirst(plains, session, n);
      assert plains[1..] == Padded(texts[1..], session.PadLen());
      ReadOneRecord(texts[0], Flatten(session.SealAll(plains[1..], n + 1)), session, recordSize + TAG_LEN, n);
    }
  }

  /** A reader whose record size counts the tag reads back exactly the part of the payload that the
      records received so far carry: `k * (recordSize - pad)` octets for `k` of them. */
  lemma ReadsRecordPrefix(payload: seq<byte>, session: Session, recordSize: nat, k: nat)
    requires session.Valid() && Sound(session.aead) && recordSize > 2
    requires k <= |Plaintexts(payload, session.PadLen(), recordSize)|
    ensures var plains := Plaintexts(payload, session.PadLen(), recordSize);
      ReadFrom(Flatten(session.SealAll(plains[..k], 0)), session, recordSize + TAG_LEN, 0)
      == Plain(payload[..Min(|payload|, Capacity(k, recordSize - session.PadLen()))])
  {
    var q := recordSize - session.PadLen();
    CarriedIsProduct(|payload|, k, q);
    PlaintextsArePaddedPieces(payload, session.PadLen(), recordSize);
    PaddedPrefix(Pieces(payload, q), session.PadLen(), k);
    PiecesFill(payload, q, k);
    PiecesCarry(payload, q, k);
    ReadsTexts(Pieces(payload, q)[..k], session, recordSize, 0);
  }

  /** The reader's test for truncation never fires: a bound from which the tag was taken off is not the
      record size. */
  lemma TruncationTestNeverFires(input: seq<byte>, recordSize: nat)
    requires Min(recordSize, |input|) > TAG_LEN
    ensures Min(recordSize, |input|) - TAG_LEN != recordSize
  {
  }

  /** Hence a stream cut after some of its records is read without complaint. What is read is the whole
      payload exactly if these records could hold it, that is, if only padding was cut off. */
  lemma TruncationGoesUnnoticed(payload: seq<byte>, session: Session, recordSize: nat, k: nat)
    requires session.Valid() && Sound(session.aead) && recordSize > 2
    requires k <= |Plaintexts(payload, session.PadLen(), recordSize)|
    ensures var plains := Plaintexts(payload, session.PadLen(), recordSize);
      var read := ReadFrom(Flatten(session.SealAll(plains[..k], 0)), session, recordSize + TAG_LEN, 0);
      && read.Plain? && read.text <= payload
      && (read == Plain(payload) <==> |payload| <= Capacity(k, recordSize - session.PadLen()))
  {
    ReadsRecordPrefix(payload, session, recordSize, k);
    assert payload[..|payload|] == payload;
  }

  lemma FlattenSealedFirst(plains: seq<seq<byte>>, session: Session, n: nat)
    requires session.Valid() && plains != []
    ensures Flatten(session.SealAll(plains, n))
         == session.Sealed(plains[0], n) + Flatten(session.SealAll(plains[1..], n + 1))
  {
  }

  /** The records together carry the whole payload. */
  lemma {:induction false} AllIsCarried(payload: seq<byte>, pad: nat, recordSize: nat)
    requires pad < recordSize
    ensures Carried(|payload|, |Plaintexts(payload, pad, recordSize)|, recordSize - pad) == |payload|
    decreases |payload|
  {
    if |payload| >= recordSize - pad {
      AllIsCarried(payload[recordSize - pad..], pad, recordSize);
    }
  }

  /** Round trip: with a reader record size of `recordSize + 16` decryption returns the payload. */
  lemma RoundTrip(payload: seq<byte>, session: Session, recordSize: nat)
    requires session.Valid() && Sound(session.aead) && recordSize > 2
    ensures ReadFrom(Flatten(session.SealAll(Plaintexts(payload, session.PadLen(), recordSize), 0)),
                     session, recordSize + TAG_LEN, 0) == Plain(payload)
  {
    var plains := Plaintexts(payload, session.PadLen(), recordSize);
    ReadsRecordPrefix(payload, session, recordSize, |plains|);
    AllIsCarried(payload, session.PadLen(), recordSize);
    CarriedIsProduct(|payload|, |plains|, recordSize - session.PadLen());
    assert plains[..|plains|] == plains;
    assert payload[..|payload|] == payload;
  }

  /** With one record size on both ends, which the source's own tests use, a payload that fits one record
      together with its padding and tag is read back. */
  lemma SameRecordSizeReads(payload: seq<byte>, session: Session, recordSize: nat)
    requires session.Valid() && Sound(session.aead) && recordSize > 2
    requires |payload| + session.PadLen() + TAG_LEN <= recordSize
    ensures ReadFrom(Flatten(session.SealAll(Plaintexts(payload, session.PadLen(), recordSize), 0)),
                     session, recordSize, 0) == Plain(payload)
  {
    var plains := Plaintexts(payload, session.PadLen(), recordSize);
    assert plains == [Zeros(session.PadLen()) + payload];
    FlattenSealedFirst(plains, session, 0);
    assert plains[1..] == [];
    ReadOneRecord(payload, [], session, recordSize, 0);
    assert payload + [] == payload;
  }

  /** Under the nonce of the first record the cipher opens nothing that `stream` starts with but `record`. */
  ghost predicate OpensNoOther(session: Session, stream: seq<byte>, record: seq<byte>)
    requires session.Valid()
  {
    forall c, t :: |t| == TAG_LEN && c + t <= stream && c + t != record
      ==> session.aead.open(session.key, NonceOf(session.nonce, 0), c, t).None?
  }

  /** With one record size on both ends the reader succeeds exactly when payload, padding and tag fit into
      it together; else it cuts the first record short, and refuses unless the cipher opens the cut. */
  lemma SameRecordSizeExactly(payload: seq<byte>, session: Session, recordSize: nat)
    requires session.Valid() && Sound(session.aead) && recordSize > 2
    requires var plains := Plaintexts(payload, session.PadLen(), recordSize);
      OpensNoOther(session, Flatten(session.SealAll(plains, 0)), session.Sealed(plains[0], 0))
    ensures var read := ReadFrom(Flatten(session.SealAll(Plaintexts(payload, session.PadLen(), recordSize), 0)),
                                 session, recordSize, 0);
      && (read == Plain(payload) <==> |payload| + session.PadLen() + TAG_LEN <= recordSize)
      && (read == Rejected <==> |payload| + session.PadLen() + TAG_LEN > recordSize)
  {
    var plains := Plaintexts(payload, session.PadLen(), recordSize);
    var stream := Flatten(session.SealAll(plains, 0));
    if |payload| + session.PadLen() + TAG_LEN <= recordSize {
      SameRecordSizeReads(payload, session, recordSize);
    } else {
      FlattenSealedFirst(plains, session, 0);
      assert |plains[0]| == Min(recordSize, session.PadLen() + |payload|);
      assert |session.Sealed(plains[0], 0)| == |plains[0]| + TAG_LEN;
      if recordSize > TAG_LEN {
        RefusesCutRecord(stream, session.Sealed(plains[0], 0), session, recordSize);
      }
    }
  }

  lemma RefusesCutRecord(stream: seq<byte>, record: seq<byte>, session: Session, recordSize: nat)
    requires session.Valid() && OpensNoOther(session, stream, record)
    requires TAG_LEN < recordSize < |record| && record <= stream
    ensures ReadFrom(stream, session, recordSize, 0) == Rejected
  {
    var bound := recordSize - TAG_LEN;
    var c, t := stream[..bound], stream[bound..recordSize];
    ReaderStep(stream, session, recordSize, 0);
    assert c + t == stream[..recordSize];
  }

  // ---------------------------------------------------------------- a cipher as assumed

  /** A tag other than the octets that follow `cut` in the stream. */
  function OtherTag(stream: seq<byte>, cut: nat): (t: seq<byte>)
    ensures |t| == TAG_LEN
    ensures cut + TAG_LEN <= |stream| ==> t != stream[cut..cut + TAG_LEN]
  {
    if cut + TAG_LEN > |stream| then Zeros(TAG_LEN)
    else
      var t := [if stream[cut] == 255 then 0 else stream[cut] + 1] + stream[cut + 1..cut + TAG_LEN];
      assert t[0] != stream[cut..cut + TAG_LEN][0];
      t
  }

  /** The tags of a cipher made for one stream: zeros, but for other texts under the first nonce. */
  function TagFor(stream: seq<byte>, first: seq<byte>, nonce0: seq<byte>, nonce: seq<byte>, text: seq<byte>): (t: seq<byte>)
    ensures |t| == TAG_LEN
  {
    if nonce != nonce0 || text == first then Zeros(TAG_LEN) else OtherTag(stream, |text|)
  }

  function CipherFor(stream: seq<byte>, first: seq<byte>, nonce0: seq<byte>): Aead {
    Aead((k: seq<byte>, n: seq<byte>, p: seq<byte>) => (p, TagFor(stream, first, nonce0, n, p)),
         (k: seq<byte>, n: seq<byte>, c: seq<byte>, t: seq<byte>) =>
           if t == TagFor(stream, first, nonce0, n, c) then Some(c) else None)
  }

  function ZeroTagged(plains: seq<seq<byte>>): (r: seq<seq<byte>>)
    ensures |r| == |plains| && forall i :: 0 <= i < |r| ==> r[i] == plains[i] + Zeros(TAG_LEN)
  {
    seq(|plains|, i requires 0 <= i < |plains| => plains[i] + Zeros(TAG_LEN))
  }

  lemma SealsZeroTagged(plains: seq<seq<byte>>, session: Session, stream: seq<byte>)
    requires session.Valid() && 0 < |plains| <= SEQ_MODULUS
    requires session.aead == CipherFor(stream, plains[0], NonceOf(session.nonce, 0))
    ensures session.SealAll(plains, 0) == ZeroTagged(plains)
  {
    hide NonceOf, CipherFor, Session.SealAll, Session.Sealed;
    forall i | 0 <= i < |plains|
      ensures session.SealAll(plains, 0)[i] == plains[i] + Zeros(TAG_LEN)
    {
      session.SealAllAt(plains, 0, i);
      SealsOneZeroTagged(plains[i], i, plains[0], session, stream);
    }
  }

  lemma SealsOneZeroTagged(plain: seq<byte>, i: nat, first: seq<byte>, session: Session, stream: seq<byte>)
    requires session.Valid() && i < SEQ_MODULUS && (i == 0 ==> plain == first)
    requires session.aead == CipherFor(stream, first, NonceOf(session.nonce, 0))
    ensures session.Sealed(plain, i) == plain + Zeros(TAG_LEN)
  {
    hide NonceOf, OtherTag;
    NoncesRepeatExactly(session.nonce, i, 0);
  }

  /** What the theorem on one record size asks of a cipher can be met: for every payload of up to 2^96
      records, key, nonce and record size there is a cipher that meets it. */
  lemma SoundCipherExists(payload: seq<byte>, key: seq<byte>, nonce: seq<byte>, hasAuth: bool, recordSize: nat)
    returns (session: Session)
    requires |nonce| >= SEQ_LEN && recordSize > 2
    requires |Plaintexts(payload, if hasAuth then 2 else 1, recordSize)| <= SEQ_MODULUS
    ensures session.key == key && session.nonce == nonce && session.hasAuth == hasAuth && session.Valid()
    ensures Sound(session.aead)
    ensures var plains := Plaintexts(payload, session.PadLen(), recordSize);
      OpensNoOther(session, Flatten(session.SealAll(plains, 0)), session.Sealed(plains[0], 0))
  {
    var plains := Plaintexts(payload, if hasAuth then 2 else 1, recordSize);
    var stream := Flatten(ZeroTagged(plains));
    var nonce0 := NonceOf(nonce, 0);
    session := Session(CipherFor(stream, plains[0], nonce0), key, nonce, hasAuth);
    SealsZeroTagged(plains, session, stream);
    OpensOnlyFirst(stream, plains[0], session);
  }

  lemma OpensOnlyFirst(stream: seq<byte>, first: seq<byte>, session: Session)
    requires session.Valid() && session.aead == CipherFor(stream, first, NonceOf(session.nonce, 0))
    ensures OpensNoOther(session, stream, session.Sealed(first, 0))
  {
    forall c, t | |t| == TAG_LEN && c + t <= stream && c + t != session.Sealed(first, 0)
      ensures session.aead.open(session.key, NonceOf(session.nonce, 0), c, t).None?
    {
      assert (c + t)[|c|..] == t;
      assert t == stream[|c|..|c| + TAG_LEN];
    }
  }
}
