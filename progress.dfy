/** The progress figures download_file shows after every chunk: a percentage
    and a 50-column bar of '#' and '-'. The percentage is computed in integers
    here; the source divides in floating point before truncating. */
module Progress {

  const BarWidth := 50

  /** int(x) of a quotient in Python truncates toward zero. */
  function TruncDiv(a: nat, b: int): (q: int)
    requires b != 0
    ensures b > 0 ==> q >= 0 && q * b <= a < (q + 1) * b
    ensures b < 0 ==> q <= 0 && -q * -b <= a < (-q + 1) * -b
  {
    if b > 0 then a / b else -(a / -b)
  }

  /** progress: 100 when the total size is unknown (0), otherwise
      downloaded * 100 / total_size, truncated toward zero; a negative
      content-length gives a progress of 0 or below. */
  function Percent(downloaded: nat, totalSize: int): (p: int)
    ensures totalSize == 0 ==> p == 100
    ensures totalSize > 0 ==> p >= 0 && p * totalSize <= downloaded * 100 < (p + 1) * totalSize
    ensures totalSize < 0 ==> p <= 0 && -p * -totalSize <= downloaded * 100 < (-p + 1) * -totalSize
  {
    if totalSize == 0 then 100 else TruncDiv(downloaded * 100, totalSize)
  }

  /** Python's c * n: n copies of c, none when n is not positive. */
  function Repeat(c: char, n: int): (r: string)
    ensures |r| == if n > 0 then n else 0
    ensures forall i :: 0 <= i < |r| ==> r[i] == c
  {
    if n <= 0 then [] else [c] + Repeat(c, n - 1)
  }

  /** The bar: progress // 2 '#' followed by 50 - progress // 2 '-'. Dafny's
      division by 2 rounds down, as Python's // does. */
  function Bar(progress: int): (r: string)
    ensures 0 <= progress <= 100 ==>
              |r| == BarWidth && forall i :: 0 <= i < |r| ==> (r[i] == '#' <==> i < progress / 2)
    ensures progress > 100 ==> |r| == progress / 2 && forall i :: 0 <= i < |r| ==> r[i] == '#'
    ensures progress < 0 ==> |r| == BarWidth - progress / 2 && forall i :: 0 <= i < |r| ==> r[i] == '-'
  {
    Repeat('#', progress / 2) + Repeat('-', BarWidth - progress / 2)
  }

  /** Progress stays within 0..100 while no more than content-length bytes
      have arrived, and reaches 100 exactly when all of them have. */
  lemma PercentBounds(downloaded: nat, totalSize: int)
    requires 0 < totalSize && downloaded <= totalSize
    ensures 0 <= Percent(downloaded, totalSize) <= 100
    ensures Percent(downloaded, totalSize) == 100 <==> downloaded == totalSize
  {
    var p := Percent(downloaded, totalSize);
    assert p * totalSize <= downloaded * 100 <= totalSize * 100;
    LessByFactor(p, 101, totalSize);
    if downloaded == totalSize {
      LessByFactor(99, p, totalSize);
    }
  }

  /** Progress never goes backwards as bytes accumulate. */
  lemma PercentMonotone(d1: nat, d2: nat, totalSize: int)
    requires d1 <= d2 && totalSize > 0
    ensures Percent(d1, totalSize) <= Percent(d2, totalSize)
  {
    var p1, p2 := Percent(d1, totalSize), Percent(d2, totalSize);
    assert p1 * totalSize < (p2 + 1) * totalSize;
    LessByFactor(p1, p2 + 1, totalSize);
  }

  lemma LessByFactor(a: int, b: int, t: int)
    requires t > 0 && a * t < b * t
    ensures a < b
  {
  }

  /** When content-length understates the body, progress passes 100 and the
      bar grows past 50 columns. */
  lemma OverrunWidensBar()
    ensures Percent(300, 100) == 300 && |Bar(Percent(300, 100))| == 150
  {
  }

  /** The number of '#' in a bar of in-range progress is progress // 2. */
  lemma {:induction false} BarCount(progress: int)
    requires 0 <= progress <= 100
    ensures multiset(Bar(progress))['#'] == progress / 2
    ensures multiset(Bar(progress))['-'] == BarWidth - progress / 2
  {
    RepeatCount('#', progress / 2, '-');
    RepeatCount('-', BarWidth - progress / 2, '#');
  }

  lemma {:induction false} RepeatCount(c: char, n: nat, d: char)
    requires c != d
    ensures multiset(Repeat(c, n))[c] == n && multiset(Repeat(c, n))[d] == 0
  {
    if n > 0 {
      RepeatCount(c, n - 1, d);
      assert Repeat(c, n) == [c] + Repeat(c, n - 1);
    }
  }
}
