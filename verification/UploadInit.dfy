/**
  Creating an upload session: how many parts a file is cut into, and the session and part rows.
  The part count goes through float64: the 64-bit size is rounded to a float64 value, and so is the
  quotient, which here is any real that meets `Rounds`.
*/
module UploadInit {
  import opened Wrappers
  import opened Upload

  const MIN_PART_SIZE: int := 5 * 1024 * 1024
  const MAX_PART_COUNT: int := 10000
  const MIB: int := 1024 * 1024
  const TWO_53: int := 0x20_0000_0000_0000
  const TWO_63: int := 0x8000_0000_0000_0000

  /** The distances of float64 values among the 64-bit integers. */
  predicate IsUnit(u: int) { u in {1, 2, 4, 8, 16, 32, 64, 128, 256, 512, 1024, 2048} }

  function UnitFrom(n: int, u: int): (r: int)
    requires -TWO_63 <= n <= TWO_63 && IsUnit(u)
    ensures IsUnit(r) && -TWO_53 * r < n < TWO_53 * r
    decreases 2048 - u
  {
    if -TWO_53 * u < n < TWO_53 * u then u else UnitFrom(n, 2 * u)
  }

  /** The distance of the float64 values around `n`: the least for which 53 bits are enough. */
  function Unit(n: int): (u: int)
    requires -TWO_63 <= n <= TWO_63
    ensures IsUnit(u) && -TWO_53 * u < n < TWO_53 * u
  {
    UnitFrom(n, 1)
  }

  predicate Significand(n: int, m: int, u: int) {
    IsUnit(u) && -TWO_53 < m < TWO_53 && n == m * u
  }

  /** The integer is a float64 value: 53 bits times a unit. */
  ghost predicate Representable(n: int) { exists m, u :: Significand(n, m, u) }

  /** Rounding a 64-bit integer to float64: to the nearest value, and in a tie to the even one. */
  function Nearest(n: int): int
    requires -TWO_63 <= n < TWO_63
  {
    var u := Unit(n);
    RoundTo(n, u) * u
  }

  /** The quotient rounded to an integer: to the nearest one, and in a tie to the even one. */
  function RoundTo(n: int, u: int): (m: int)
    requires u > 0
    ensures -u <= 2 * (m * u - n) <= u
  {
    var q := n / u;
    assert n == q * u + n % u;
    assert (q + 1) * u == q * u + u;
    if 2 * (n % u) < u || (2 * (n % u) == u && q % 2 == 0) then q else q + 1
  }

  /**
    Rounding a quotient to float64: the relative error is at most 2^-53, and below 2^53 no integer is
    crossed, since these integers are float64 values themselves.
  */
  predicate Rounds(x: real, f: real) {
    if x <= 0.0 then f <= 0.0
    else
      && -x <= (f - x) * TWO_53 as real <= x
      && (x < TWO_53 as real ==> x.Floor as real <= f <= (x.Floor + 1) as real && (x == x.Floor as real ==> f == x))
  }

  /** The exact quotient, rounded. */
  ghost predicate IsQuotient(a: real, b: real, f: real) {
    exists x {:trigger Rounds(x, f)} :: x * b == a && Rounds(x, f)
  }

  /** The processor's conversion of 64-bit integers, and its division of the values this gives. */
  datatype Float64 = Float64(convert: int -> real, divide: (real, real) -> real) {
    ghost predicate Valid() { Converts() && Divides() }

    ghost predicate Converts() {
      forall n: int :: -TWO_63 <= n < TWO_63 ==> convert(n) == Nearest(n) as real
    }

    ghost predicate Divides() {
      forall a: int, b: int :: Representable(a) && Representable(b) && b > 0 ==>
        IsQuotient(a as real, b as real, divide(a as real, b as real))
    }
  }

  function Ceil(f: real): int { -((-f).Floor) }

  /** `n` pieces of `size` bytes are enough for `total` bytes, and `n - 1` are not. */
  predicate LeastCover(n: int, size: int, total: int) {
    (n - 1) * size < total <= n * size
  }

  /** A product of 64-bit signed integers, as it wraps around. */
  function Wrap64(n: int): int { (n + TWO_63) % (2 * TWO_63) - TWO_63 }

  /** What every part size is: whole MiB within 64 bits. */
  predicate WholeMib(p: int) { 0 < p < TWO_63 && p % MIB == 0 }

  function PartSize(chunkSizeMB: int): (p: int)
    ensures p >= MIN_PART_SIZE && WholeMib(p)
    ensures 5 <= chunkSizeMB < TWO_63 / MIB ==> p == chunkSizeMB * MIB
    ensures chunkSizeMB < 5 ==> p == MIN_PART_SIZE
  {
    var mb := if chunkSizeMB < 5 then 5 else chunkSizeMB;
    var size := Wrap64(mb * 1024 * 1024);
    WrapKeepsMultiples(mb);
    if size < MIN_PART_SIZE then MIN_PART_SIZE else size
  }

  lemma WrapKeepsMultiples(mb: int)
    ensures var w := Wrap64(mb * 1024 * 1024); w % MIB == 0 && -TWO_63 <= w < TWO_63
    ensures 0 <= mb < TWO_63 / MIB ==> Wrap64(mb * 1024 * 1024) == mb * MIB
  {
    var q := (mb * MIB + TWO_63) / (2 * TWO_63);
    var w := mb * MIB - q * 2 * TWO_63;
    assert w == Wrap64(mb * 1024 * 1024);
    assert w == (mb - q * 2 * (TWO_63 / MIB)) * MIB;
  }

  function PartCount(fpu: Float64, size: int, partSize: int): int {
    Ceil(fpu.divide(fpu.convert(size), fpu.convert(partSize)))
  }

  lemma ScaleInt(a: int, b: int, u: int)
    requires u > 0
    ensures a <= b ==> a * u <= b * u
  {
    if a <= b {
      assert (b - a) * u >= 0;
      assert (b - a) * u == b * u - a * u;
    }
  }

  lemma RoundRange(n: int, u: int)
    requires IsUnit(u) && -TWO_53 * u < n < TWO_53 * u
    ensures -TWO_53 <= RoundTo(n, u) <= TWO_53
  {
    var m := RoundTo(n, u);
    ScaleInt(TWO_53 + 1, m, u);
    ScaleInt(m, -TWO_53 - 1, u);
  }

  lemma TwiceTheUnit(m: int, u: int)
    requires IsUnit(u) && u != 2048 && (m == TWO_53 || m == -TWO_53)
    ensures Representable(m * u)
  {
    assert Significand(m * u, m / 2, 2 * u);
  }

  lemma MultipleStays(n: int, u: int)
    requires u > 0
    ensures n % u == 0 ==> RoundTo(n, u) * u == n
  {
    assert n == (n / u) * u + n % u;
  }

  /** The rounded size is within half a unit of the size, and it is a float64 value. */
  lemma NearestIsNear(n: int)
    requires -TWO_63 <= n < TWO_63
    ensures Representable(Nearest(n)) && -Unit(n) <= 2 * (Nearest(n) - n) <= Unit(n)
    ensures n % Unit(n) == 0 ==> Nearest(n) == n
  {
    var u, m := Unit(n), RoundTo(n, Unit(n));
    RoundRange(n, u);
    MultipleStays(n, u);
    if -TWO_53 < m < TWO_53 {
      assert Significand(m * u, m, u);
    } else {
      TwiceTheUnit(m, u);
    }
  }

  /** Rounding keeps the sign. */
  lemma NearestSign(n: int)
    requires -TWO_63 <= n < TWO_63
    ensures n <= 0 <==> Nearest(n) <= 0
  {
    SmallSizesAreExact(n);
    NearestIsNear(n);
  }

  /** Up to 2^53 bytes no size is rounded. */
  lemma SmallSizesAreExact(size: int)
    requires -TWO_63 <= size < TWO_63
    ensures -TWO_53 <= size <= TWO_53 ==> Nearest(size) == size
  {
    if -TWO_53 < size < TWO_53 {
      assert Unit(size) == 1;
      MultipleStays(size, 1);
    } else if size == TWO_53 || size == -TWO_53 {
      assert Unit(size) == 2;
      MultipleStays(size, 2);
    }
  }

  lemma UnitDividesMib(u: int)
    requires IsUnit(u)
    ensures (MIB / u) * u == MIB
  {
  }

  /** Whole MiB are multiples of every unit. */
  lemma MibIsMultiple(p: int, u: int) returns (d: int)
    requires p % MIB == 0 && IsUnit(u)
    ensures p == d * u
  {
    UnitDividesMib(u);
    d := (p / MIB) * (MIB / u);
    assert p == (p / MIB) * MIB;
  }

  /** Whole MiB within 64 bits are float64 values. */
  lemma MibIsRepresentable(p: int)
    requires WholeMib(p)
    ensures Nearest(p) == p && Representable(p)
  {
    var d := MibIsMultiple(p, Unit(p));
    assert d * Unit(p) % Unit(p) == 0 by { MultipleHasNoRest(d, Unit(p)); }
    NearestIsNear(p);
  }

  lemma MultipleHasNoRest(d: int, u: int)
    requires u > 0
    ensures d * u % u == 0
  {
    var q, r := d * u / u, d * u % u;
    assert d * u == q * u + r;
    assert (d - q) * u == r;
    Between(d - q, u);
  }

  lemma Between(d: int, u: int)
    requires u > 0 && 0 <= d * u < u
    ensures d == 0
  {
    ScaleInt(1, d, u);
    ScaleInt(d, -1, u);
  }

  lemma AtLeastOne(d: int, u: int)
    requires u > 0 && d * u > 0
    ensures d * u >= u
  {
    ScaleInt(1, d, u);
    ScaleInt(d, 0, u);
  }

  /** Different multiples are at least a unit apart. */
  lemma MultiplesApart(k: int, p: int, i: int, r: int, j: int, u: int)
    requires u > 0 && p == i * u && r == j * u
    ensures k * p < r ==> k * p + u <= r
    ensures r < k * p ==> r + u <= k * p
  {
    assert k * p == (k * i) * u;
    assert (j - k * i) * u == r - k * p;
    assert (k * i - j) * u == k * p - r;
    if k * p < r {
      AtLeastOne(j - k * i, u);
    } else if r < k * p {
      AtLeastOne(k * i - j, u);
    }
  }

  lemma Scale(a: real, b: real, p: real)
    requires a <= b && p >= 0.0
    ensures a * p <= b * p
  {
    assert (b - a) * p >= 0.0;
    assert (b - a) * p == b * p - a * p;
  }

  lemma ScaleStrict(a: real, b: real, p: real)
    requires a < b && p > 0.0
    ensures a * p < b * p
  {
    assert (b - a) * p > 0.0;
    assert (b - a) * p == b * p - a * p;
  }

  lemma IntProduct(k: int, partSize: int)
    ensures (k * partSize) as real == k as real * partSize as real
  {
  }

  lemma Distribute(x: real, y: real, p: real)
    ensures (x - y) * p == x * p - y * p
  {
  }

  lemma Swap(a: real, b: real, c: real)
    ensures (a * b) * c == (a * c) * b
  {
  }

  /** The exact quotient is positive and below 2^53. */
  lemma QuotientRange(r: int, partSize: int, x: real)
    requires 0 < r <= TWO_63 && partSize >= MIB && x * partSize as real == r as real
    ensures 0.0 < x < TWO_53 as real
  {
    if x <= 0.0 {
      Scale(x, 0.0, partSize as real);
    }
    if x >= TWO_53 as real {
      Scale(TWO_53 as real, x, partSize as real);
    }
  }

  /** Comparing a quotient with an integer is comparing the size with a multiple of the part size. */
  lemma CompareQuotient(size: int, partSize: int, x: real, k: int)
    requires partSize > 0 && x * partSize as real == size as real
    ensures k as real < x ==> k * partSize < size
    ensures k as real == x ==> k * partSize == size
    ensures x < k as real ==> size < k * partSize
  {
    var p := partSize as real;
    var y := k as real;
    IntProduct(k, partSize);
    if y < x { ScaleStrict(y, x, p); }
    if x < y { ScaleStrict(x, y, p); }
  }

  /** What it takes for a rounded quotient to come down to an integer below it. */
  lemma Falls(r: int, partSize: int, x: real, k: int, f: real)
    requires partSize > 0 && x * partSize as real == r as real
    requires -x <= (f - x) * TWO_53 as real && f <= k as real
    ensures (r - k * partSize) * TWO_53 <= r
  {
    var p, y := partSize as real, k as real;
    var gap := (x - y) * TWO_53 as real;
    assert gap <= x;
    Scale(gap, x, p);
    Swap(x - y, TWO_53 as real, p);
    Distribute(x, y, p);
    IntProduct(k, partSize);
    assert (r - k * partSize) as real == (x - y) * p;
  }

  /** The rounded quotient of float64 values stays above the integer below it. */
  lemma StaysAbove(r: int, partSize: int, x: real, k: int, f: real)
    requires Representable(r) && WholeMib(partSize) && x * partSize as real == r as real
    requires k * partSize < r && -x <= (f - x) * TWO_53 as real
    ensures k as real < f
  {
    var m, u :| Significand(r, m, u);
    var d := MibIsMultiple(partSize, u);
    MultiplesApart(k, partSize, d, r, m, u);
    if f <= k as real {
      Falls(r, partSize, x, k, f);
    }
  }

  /** The ceiling of the rounded quotient of float64 values is the exact one. */
  lemma CeilIsExact(r: int, partSize: int, x: real, f: real)
    requires Representable(r) && 0 < r <= TWO_63 && WholeMib(partSize) && x * partSize as real == r as real
    requires Rounds(x, f)
    ensures LeastCover(Ceil(f), partSize, r)
  {
    QuotientRange(r, partSize, x);
    CompareQuotient(r, partSize, x, x.Floor);
    CompareQuotient(r, partSize, x, x.Floor + 1);
    if x > x.Floor as real {
      StaysAbove(r, partSize, x, x.Floor, f);
      assert Ceil(f) == x.Floor + 1;
    } else {
      assert Ceil(f) == x.Floor;
      assert (x.Floor - 1) * partSize == x.Floor * partSize - partSize;
    }
  }

  lemma CeilNotPositive(r: int, partSize: int, x: real, f: real)
    requires r <= 0 && partSize > 0 && x * partSize as real == r as real && Rounds(x, f)
    ensures Ceil(f) <= 0
  {
    if x > 0.0 {
      ScaleStrict(0.0, x, partSize as real);
    }
  }

  /** The ceiling of a rounded quotient of float64 values. */
  lemma CeilOfQuotient(r: int, partSize: int, f: real)
    requires Representable(r) && r <= TWO_63 && WholeMib(partSize) && IsQuotient(r as real, partSize as real, f)
    ensures if r > 0 then LeastCover(Ceil(f), partSize, r) else Ceil(f) <= 0
  {
    var x :| x * partSize as real == r as real && Rounds(x, f);
    if r > 0 {
      CeilIsExact(r, partSize, x, f);
    } else {
      CeilNotPositive(r, partSize, x, f);
    }
  }

  lemma DivideCeil(fpu: Float64, r: int, partSize: int)
    requires fpu.Divides() && Representable(r) && r <= TWO_63 && WholeMib(partSize) && Representable(partSize)
    ensures var n := Ceil(fpu.divide(r as real, partSize as real));
            if r > 0 then LeastCover(n, partSize, r) else n <= 0
  {
    CeilOfQuotient(r, partSize, fpu.divide(r as real, partSize as real));
  }

  /** The part count is that of the rounded size. */
  lemma PartCountOfNearest(fpu: Float64, size: int, partSize: int)
    requires fpu.Valid() && -TWO_63 <= size < TWO_63 && WholeMib(partSize)
    ensures size > 0 ==> LeastCover(PartCount(fpu, size, partSize), partSize, Nearest(size))
    ensures size <= 0 ==> PartCount(fpu, size, partSize) <= 0
  {
    NearestIsNear(size);
    NearestSign(size);
    NearestWithin(size);
    MibIsRepresentable(partSize);
    DivideCeil(fpu, Nearest(size), partSize);
  }

  /** Rounding does not leave the 64 bits, but for 2^63 itself. */
  lemma NearestWithin(n: int)
    requires -TWO_63 <= n < TWO_63
    ensures Nearest(n) <= TWO_63
  {
    RoundRange(n, Unit(n));
    assert n > 0 ==> Unit(n) <= 1024;
  }

  /** The size was rounded down to a whole number of parts, so that its last bytes are in no part. */
  predicate RoundedAway(size: int, partSize: int)
    requires -TWO_63 <= size < TWO_63 && partSize > 0
  {
    Nearest(size) < size && Nearest(size) % partSize == 0
  }

  /**
    The part count is the least cover of the file if and only if the size was not rounded down to a
    whole number of parts; in that case the parts hold exactly the rounded size.
  */
  lemma PartCountIsExact(fpu: Float64, size: int, partSize: int)
    requires fpu.Valid() && 0 < size < TWO_63 && WholeMib(partSize)
    ensures var n := PartCount(fpu, size, partSize);
      && (LeastCover(n, partSize, size) <==> !RoundedAway(size, partSize))
      && (RoundedAway(size, partSize) ==> n * partSize == Nearest(size) < size)
  {
    var n, r, u := PartCount(fpu, size, partSize), Nearest(size), Unit(size);
    PartCountOfNearest(fpu, size, partSize);
    NearestIsNear(size);
    var d := MibIsMultiple(partSize, u);
    MultiplesApart(n - 1, partSize, d, r, RoundTo(size, u), u);
    MultiplesApart(n, partSize, d, r, RoundTo(size, u), u);
    CoverIsWhole(n, partSize, r);
  }

  /** A least cover fits exactly when the size is a multiple of the part size. */
  lemma CoverIsWhole(n: int, partSize: int, r: int)
    requires partSize > 0 && LeastCover(n, partSize, r)
    ensures n * partSize == r <==> r % partSize == 0
  {
    var q := r / partSize;
    assert r == q * partSize + r % partSize;
    assert (n - 1) * partSize == n * partSize - partSize;
    if n * partSize == r {
      MultipleHasNoRest(n, partSize);
    } else if r % partSize == 0 {
      assert (n - q) * partSize == n * partSize - r;
      Between(n - q, partSize);
    }
  }

  /** The first size that is rounded away: with parts of 1 TiB, the last of 2^53 + 1 bytes. */
  lemma OddByteIsLost(fpu: Float64)
    requires fpu.Valid()
    ensures var p := PartSize(0x10_0000);
            RoundedAway(TWO_53 + 1, p) && PartCount(fpu, TWO_53 + 1, p) * p == TWO_53
  {
    var p := PartSize(0x10_0000);
    assert p == 0x100_0000_0000;
    assert Unit(TWO_53 + 1) == 2;
    assert RoundTo(TWO_53 + 1, 2) == TWO_53 / 2;
    PartCountIsExact(fpu, TWO_53 + 1, p);
  }

  datatype InitError = BadMimeType | TooLarge | TooManyParts | BadVideoId | VideoNotFound | VideoNotPending | Internal

  datatype Result<+T> = Ok(value: T) | Err(error: InitError)

  /** The answers of the calls the request makes, in the order it makes them. */
  datatype InitEnv = InitEnv(mimeAllowed: bool, videoIdParses: bool, video: VideoLookup, multipartCreated: bool,
                             rowsCreated: bool)

  datatype VideoLookup = Found(pendingUpload: bool) | NotFound | LookupFailed

  datatype NewSession = NewSession(session: Session, parts: seq<Part>, partSize: int)

  /** The rows of the parts, numbered from 1 and pending. */
  method NewPartRows(totalParts: nat) returns (parts: array<Part>)
    ensures fresh(parts) && parts[..] == NewParts(totalParts)
  {
    parts := new Part[totalParts](i => Part(0, Pending, "", ""));
    for i := 0 to totalParts
      invariant parts[..i] == NewParts(totalParts)[..i]
    {
      parts[i] := Part(i + 1, Pending, "", "");
    }
  }

  /** How the part count compares with the maximum. */
  lemma PartCountFits(fpu: Float64, size: int, partSize: int)
    requires fpu.Valid() && -TWO_63 <= size < TWO_63 && WholeMib(partSize)
    ensures PartCount(fpu, size, partSize) > MAX_PART_COUNT <==> MAX_PART_COUNT * partSize < Nearest(size)
    ensures PartCount(fpu, size, partSize) < 1 <==> size <= 0
    ensures size > 0 ==> (LeastCover(PartCount(fpu, size, partSize), partSize, size) <==> !RoundedAway(size, partSize))
  {
    PartCountOfNearest(fpu, size, partSize);
    NearestSign(size);
    if size > 0 {
      PartCountIsExact(fpu, size, partSize);
      CoverOrder(PartCount(fpu, size, partSize), partSize, Nearest(size));
    }
  }

  /** The checks of the request itself pass: its type, its size and the number of its parts. */
  predicate Acceptable(size: int, maxSize: int, partSize: int, env: InitEnv)
    requires -TWO_63 <= size < TWO_63
  {
    env.mimeAllowed && size <= maxSize && Nearest(size) <= 10_000 * partSize
  }

  /** Everything before the rows are created went well. */
  predicate Creatable(size: int, maxSize: int, partSize: int, env: InitEnv)
    requires -TWO_63 <= size < TWO_63
  {
    Acceptable(size, maxSize, partSize, env) && env.videoIdParses && env.video == Found(true) && env.multipartCreated
  }

  /** The session and its part rows, or the first error; `aborted` tells whether storage had to forget the upload. */
  method InitChunkedUpload(size: int, maxSize: int, chunkSizeMB: int, env: InitEnv, fpu: Float64)
    returns (r: Result<NewSession>, aborted: bool)
    requires fpu.Valid() && -TWO_63 <= size < TWO_63
    ensures r.Ok? ==>
      && r.value.partSize == PartSize(chunkSizeMB) >= 5_242_880
      && 1 <= r.value.session.totalParts <= 10_000
      && Init(State(r.value.session, r.value.parts, [], 0, map[]))
    ensures r.Ok? ==>
      && r.value.session == Session(Initiated, |r.value.parts|, None)
      && forall i :: 0 <= i < |r.value.parts| ==> r.value.parts[i] == Part(i + 1, Pending, "", "")
    ensures r.Ok? && size <= 0 ==> r.value.session.totalParts == 1
    ensures r.Ok? && size > 0 ==>
      (LeastCover(r.value.session.totalParts, r.value.partSize, size) <==> !RoundedAway(size, r.value.partSize))
    ensures r == Err(BadMimeType) <==> !env.mimeAllowed
    ensures r == Err(TooLarge) <==> env.mimeAllowed && size > maxSize
    ensures r == Err(TooManyParts) <==>
      env.mimeAllowed && size <= maxSize && 10_000 * PartSize(chunkSizeMB) < Nearest(size)
    ensures r == Err(BadVideoId) <==> Acceptable(size, maxSize, PartSize(chunkSizeMB), env) && !env.videoIdParses
    ensures r == Err(VideoNotFound) <==>
      Acceptable(size, maxSize, PartSize(chunkSizeMB), env) && env.videoIdParses && env.video == NotFound
    ensures r == Err(VideoNotPending) <==>
      Acceptable(size, maxSize, PartSize(chunkSizeMB), env) && env.videoIdParses && env.video == Found(false)
    ensures r.Ok? <==> Creatable(size, maxSize, PartSize(chunkSizeMB), env) && env.rowsCreated
    ensures aborted <==> Creatable(size, maxSize, PartSize(chunkSizeMB), env) && !env.rowsCreated
    ensures aborted ==> r == Err(Internal)
  {
    if !env.mimeAllowed {
      return Err(BadMimeType), false;
    }
    if size > maxSize {
      return Err(TooLarge), false;
    }
    var partSize := PartSize(chunkSizeMB);
    var totalParts := PartCount(fpu, size, partSize);
    PartCountFits(fpu, size, partSize);
    if totalParts > MAX_PART_COUNT {
      return Err(TooManyParts), false;
    }
    if totalParts < 1 {
      totalParts := 1;
    }
    r, aborted := CreateSession(totalParts, partSize, env);
  }

  /** InitChunkedUpload once the number of parts is known. */
  method CreateSession(totalParts: nat, partSize: int, env: InitEnv) returns (r: Result<NewSession>, aborted: bool)
    requires totalParts > 0
    ensures r.Ok? ==>
      && r.value.partSize == partSize && r.value.session == Session(Initiated, totalParts, None)
      && r.value.parts == NewParts(totalParts)
    ensures r.Ok? <==> env.videoIdParses && env.video == Found(true) && env.multipartCreated && env.rowsCreated
    ensures aborted <==> env.videoIdParses && env.video == Found(true) && env.multipartCreated && !env.rowsCreated
    ensures r.Err? ==> r.error in {BadVideoId, VideoNotFound, VideoNotPending, Internal}
    ensures aborted ==> r == Err(Internal)
    ensures r == Err(BadVideoId) <==> !env.videoIdParses
    ensures r == Err(VideoNotFound) <==> env.videoIdParses && env.video == NotFound
    ensures r == Err(VideoNotPending) <==> env.videoIdParses && env.video == Found(false)
  {
    aborted := false;
    if !env.videoIdParses {
      return Err(BadVideoId), false;
    }
    match env.video {
      case NotFound => return Err(VideoNotFound), false;
      case LookupFailed => return Err(Internal), false;
      case Found(pendingUpload) =>
        if !pendingUpload {
          return Err(VideoNotPending), false;
        }
    }
    if !env.multipartCreated {
      return Err(Internal), false;
    }
    var session := Session(Initiated, totalParts, None);
    var parts := NewPartRows(totalParts);
    if !env.rowsCreated {
      return Err(Internal), true;
    }
    r := Ok(NewSession(session, parts[..], partSize));
  }

  /** A least cover of at most `m` pieces exists exactly when `m` pieces are enough. */
  lemma CoverOrder(n: int, partSize: int, size: int)
    requires partSize > 0
    ensures LeastCover(n, partSize, size) ==> (n > MAX_PART_COUNT <==> MAX_PART_COUNT * partSize < size)
    ensures LeastCover(n, partSize, size) && size > 0 ==> n >= 1
  {
    if n > MAX_PART_COUNT {
      assert (n - 1) * partSize >= MAX_PART_COUNT * partSize;
    } else {
      assert n * partSize <= MAX_PART_COUNT * partSize;
    }
    if n < 1 {
      assert n * partSize <= 0;
    }
  }
}
