/** Waterfall rows from a 12 kHz stream in whatever blocks it arrives
    (embedded-poc/embedded-shared/src/waterfall.rs, `WfRowBuilder`): a circular history
    of the last 2048 samples, and a windowed copy of it, oldest first, every 2000. */
module Waterfall {

  import opened Common

  const NFFT: nat := 2048
  const HOP: nat := 2000

  /** What reaches the transform for one row, and the stream position at its end. */
  datatype Row = Row(at: nat, data: seq<real>)

  function Windowed(samples: seq<I16>, window: seq<real>): seq<real>
    requires |samples| == |window|
  {
    seq(|samples|, k requires 0 <= k < |samples| => Weighted(samples[k], window[k]))
  }

  function Weighted(s: I16, w: real): real {
    s as real * w
  }

  /** One windowed multiply of a stretch. */
  method MulInto(src: array<I16>, from: nat, window: array<real>, dst: array<real>, at: nat, n: nat)
    requires from + n <= src.Length && at + n <= window.Length == dst.Length && window != dst
    modifies dst
    ensures forall k :: at <= k < at + n ==> dst[k] == Weighted(src[from + (k - at)], window[k])
    ensures forall k :: 0 <= k < dst.Length && !(at <= k < at + n) ==> dst[k] == old(dst[k])
  {
    forall k | at <= k < at + n {
      dst[k] := Weighted(src[from + (k - at)], window[k]);
    }
  }

  /** A row is due once `n` samples are in. */
  predicate Due(n: nat) {
    n >= NFFT && (n - NFFT) % HOP == 0
  }

  /** The rows of a stream, whatever its blocks were. */
  function RowsOf(h: seq<I16>, window: seq<real>): seq<Row>
    requires |window| == NFFT
  {
    if h == [] then []
    else
      var before := RowsOf(h[..|h| - 1], window);
      if Due(|h|) then before + [Row(|h|, Windowed(h[|h| - NFFT..], window))] else before
  }

  /** Samples since the last row. */
  function Since(n: nat): nat {
    if n < NFFT then n else (n - NFFT) % HOP
  }

  /** The circular history: every one of the last NFFT samples at its index modulo
      NFFT. */
  ghost predicate Holds(hist: seq<I16>, h: seq<I16>) {
    && |hist| == NFFT
    && forall i :: 0 <= i < |h| && |h| - NFFT <= i ==> h[i] == hist[i % NFFT]
  }

  lemma HoldsNext(hist: seq<I16>, h: seq<I16>, s: I16)
    requires Holds(hist, h)
    ensures Holds(hist[|h| % NFFT := s], h + [s])
  {
    var next, hist' := h + [s], hist[|h| % NFFT := s];
    forall i | 0 <= i < |next| && |next| - NFFT <= i ensures next[i] == hist'[i % NFFT] {
      if i < |h| {
        assert next[i] == h[i] == hist[i % NFFT];
        OtherPlace(i, |h|);
      }
    }
  }

  lemma OtherPlace(i: nat, n: nat)
    requires i < n < i + NFFT
    ensures i % NFFT != n % NFFT
  {
  }

  class WfRowBuilder {
    const window: array<real>
    const hist: array<I16>
    var head: nat
    var filled: nat
    var sinceRow: nat
    var total: nat
    ghost var history: seq<I16>

    ghost predicate Valid()
      reads this, window, hist
    {
      && window.Length == NFFT && Holds(hist[..], history)
      && total == |history| && head == total % NFFT
      && filled == (if total < NFFT then total else NFFT)
      && sinceRow == Since(total)
    }

    constructor (w: array<real>)
      requires w.Length == NFFT
      ensures Valid() && window == w && history == [] && fresh(hist)
    {
      window := w;
      hist := new I16[NFFT](_ => 0);
      head, filled, sinceRow, total := 0, 0, 0, 0;
      history := [];
    }

    /** One turn of the loop in `push`: whether a row is due. */
    method Feed(s: I16) returns (due: bool)
      requires Valid()
      modifies this, hist
      ensures Valid() && history == old(history) + [s] && due == Due(|history|)
    {
      HoldsNext(hist[..], history, s);
      SinceNext(total);
      HeadNext(total);
      hist[head] := s;
      head := (head + 1) % NFFT;
      filled := if filled + 1 < NFFT then filled + 1 else NFFT;
      total := total + 1;
      history := history + [s];
      sinceRow := sinceRow + 1;
      due := sinceRow >= HOP && filled == NFFT;
      if due {
        sinceRow := 0;
      }
    }

    /** `row`, up to the transform: the history from `head` on, then from the start up
        to it, each times its stretch of the window. */
    method WindowedRow() returns (data: array<real>)
      requires Valid() && filled == NFFT
      ensures fresh(data) && |history| >= NFFT && data[..] == Windowed(history[|history| - NFFT..], window[..])
    {
      data := new real[NFFT](_ => 0.0);
      var older := NFFT - head;
      MulInto(hist, head, window, data, 0, older);
      if head > 0 {
        MulInto(hist, 0, window, data, older, head);
      }
      ghost var recent := history[|history| - NFFT..];
      forall k | 0 <= k < NFFT ensures data[k] == Windowed(recent, window[..])[k] {
        OldestFirst(hist[..], history, k);
      }
    }

    /** One turn of the loop in `push`, with its row if one is due. */
    method FeedRow(s: I16) returns (row: Option<Row>)
      requires Valid()
      modifies this, hist
      ensures Valid() && history == old(history) + [s] && window[..] == old(window[..])
      ensures row == RowAt(history, window[..])
    {
      var due := Feed(s);
      row := None;
      if due {
        var data := WindowedRow();
        row := Some(Row(total, data[..]));
      }
    }

    /** `push`, with the rows it hands to `on_row`. */
    method Push(samples: seq<I16>) returns (rows: seq<Row>)
      requires Valid()
      modifies this, hist
      ensures Valid() && history == old(history) + samples && window[..] == old(window[..])
      ensures RowsOf(history, window[..]) == RowsOf(old(history), window[..]) + rows
    {
      rows := [];
      ghost var h0, w := history, window[..];
      for i := 0 to |samples|
        invariant Valid() && history == h0 + samples[..i] && window[..] == w
        invariant RowsOf(history, w) == RowsOf(h0, w) + rows
      {
        RowsExtend(RowsOf(h0, w), history, samples[i], w, rows);
        var row := FeedRow(samples[i]);
        if row.Some? {
          rows := rows + [row.value];
        }
        assert h0 + samples[..i + 1] == (h0 + samples[..i]) + [samples[i]];
      }
      assert samples[..|samples|] == samples;
    }
  }

  /** The row that ends with the last sample, if one does. */
  function RowAt(h: seq<I16>, window: seq<real>): Option<Row>
    requires |window| == NFFT
  {
    if Due(|h|) then Some(Row(|h|, Windowed(h[|h| - NFFT..], window))) else None
  }

  lemma RowsExtend(base: seq<Row>, h: seq<I16>, s: I16, window: seq<real>, rows: seq<Row>)
    requires |window| == NFFT && RowsOf(h, window) == base + rows
    ensures
      var row := RowAt(h + [s], window);
      RowsOf(h + [s], window) == base + if row.Some? then rows + [row.value] else rows
  {
    assert (h + [s])[..|h|] == h;
    var row := RowAt(h + [s], window);
    if row.Some? {
      assert base + (rows + [row.value]) == (base + rows) + [row.value];
    }
  }

  lemma HeadNext(n: nat)
    ensures (n % NFFT + 1) % NFFT == (n + 1) % NFFT
  {
  }

  lemma SinceNext(n: nat)
    ensures Since(n + 1) == if Due(n + 1) then 0 else Since(n) + 1
    ensures Due(n + 1) <==> Since(n) + 1 >= HOP && n + 1 >= NFFT
  {
    if n >= NFFT {
      var r := (n - NFFT) % HOP;
      assert n - NFFT == (n - NFFT) / HOP * HOP + r;
      if r + 1 < HOP {
        ModUnique(n + 1 - NFFT, (n - NFFT) / HOP, r + 1);
      } else {
        ModUnique(n + 1 - NFFT, (n - NFFT) / HOP + 1, 0);
      }
    }
  }

  lemma ModUnique(x: int, q: int, r: int)
    requires 0 <= r < HOP && x == q * HOP + r
    ensures x % HOP == r
  {
  }

  /** Reading from the head wraps to the last NFFT samples, oldest first. */
  lemma OldestFirst(hist: seq<I16>, h: seq<I16>, k: nat)
    requires Holds(hist, h) && |h| >= NFFT && k < NFFT
    ensures
      var head := |h| % NFFT;
      h[|h| - NFFT..][k] == hist[if k < NFFT - head then head + k else k - (NFFT - head)]
  {
    var i := |h| - NFFT + k;
    assert h[|h| - NFFT..][k] == h[i] == hist[i % NFFT];
  }

  // ---- Main results ------------------------------------------------------------------------

  /** Rows due by the time `n` samples are in. */
  function RowsBy(n: nat): nat {
    if n < NFFT then 0 else (n - NFFT) / HOP + 1
  }

  lemma RowsByNext(n: nat)
    ensures RowsBy(n + 1) == RowsBy(n) + if Due(n + 1) then 1 else 0
    ensures Due(n + 1) ==> n + 1 == NFFT + HOP * RowsBy(n)
  {
    if n >= NFFT {
      var q, r := (n - NFFT) / HOP, (n - NFFT) % HOP;
      assert n - NFFT == q * HOP + r;
      if r + 1 < HOP {
        DivUnique(n + 1 - NFFT, q, r + 1);
      } else {
        DivUnique(n + 1 - NFFT, q + 1, 0);
      }
    }
  }

  lemma DivUnique(x: int, q: int, r: int)
    requires 0 <= r < HOP && x == q * HOP + r
    ensures x / HOP == q && x % HOP == r
  {
  }

  /** Row r ends exactly at sample 2048 + 2000 r and is the windowed copy of the 2048
      samples before that, oldest first; and there are no others. */
  lemma {:induction false} RowCadence(h: seq<I16>, window: seq<real>, r: nat)
    requires |window| == NFFT && r < |RowsOf(h, window)|
    ensures |RowsOf(h, window)| == RowsBy(|h|)
    ensures
      var end, row := NFFT + HOP * r, RowsOf(h, window)[r];
      && end <= |h| && row == Row(end, Windowed(h[end - NFFT..end], window))
      && |row.data| == 2048
      && forall k :: 0 <= k < 2048 ==> row.data[k] == h[2000 * r + k] as real * window[k]
  {
    RowCount(h, window);
    var init := h[..|h| - 1];
    RowCount(init, window);
    RowsByNext(|h| - 1);
    var end := NFFT + HOP * r;
    if r < |RowsOf(init, window)| {
      RowCadence(init, window, r);
      assert init[end - NFFT..end] == h[end - NFFT..end];
    } else {
      assert end == |h| && h[|h| - NFFT..] == h[end - NFFT..end];
    }
  }

  lemma {:induction false} RowCount(h: seq<I16>, window: seq<real>)
    requires |window| == NFFT
    ensures |RowsOf(h, window)| == RowsBy(|h|)
  {
    if h != [] {
      RowCount(h[..|h| - 1], window);
      RowsByNext(|h| - 1);
    }
  }
}
