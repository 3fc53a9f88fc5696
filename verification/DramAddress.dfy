/** The address fields of the memory controller lose nothing: channel, bank, column, rank
    and row together are the block number, up to the size of the memory. */
module DramAddress {
  import opened DramState

  function Times(a: nat, b: nat): (p: nat)
    ensures a > 0 && b > 0 ==> p > 0
  {
    a * b
  }

  lemma DivMod(x: nat, m: nat, q: nat, r: nat)
    requires m > 0 && r < m && x == m * q + r
    ensures x / m == q && x % m == r
  {
    var q', r' := x / m, x % m;
    assert m * (q' - q) == r - r';
    assert 0 - m < m * (q' - q) < m;
    SmallMultiple(m, q' - q);
  }

  lemma SmallMultiple(m: int, k: int)
    requires m > 0 && -m < m * k < m
    ensures k == 0
  {
    if k >= 1 {
      MultipleGrows(m, 1, k);
    }
    if k <= -1 {
      MultipleGrows(m, k, -1);
    }
  }

  lemma MultipleGrows(m: int, a: int, b: int)
    requires m >= 0 && a <= b
    ensures m * a <= m * b
  {
  }

  lemma Distribute(m: int, a: int, b: int)
    ensures m * (a + b) == m * a + m * b
  {
  }

  lemma Associate(m: int, n: int, q: int)
    ensures m * (n * q) == (m * n) * q
  {
  }

  lemma Compose(m: int, n: int, q: int, d: int, r: int)
    ensures m * (n * q + d) + r == (m * n) * q + (m * d + r)
  {
    Distribute(m, n * q, d);
    Associate(m, n, q);
  }

  lemma DigitsBelow(m: nat, n: nat, d: nat, r: nat)
    requires m > 0 && d < n && r < m
    ensures 0 <= m * d + r < m * n
  {
    MultipleGrows(m, d, n - 1);
    Distribute(m, n, -1);
    MultipleGrows(m, 0, d);
  }

  lemma TwoDigitsOf(x: nat, m: nat, n: nat, q: nat, r: nat, q1: nat, d: nat, base: nat)
    requires m > 0 && n > 0 && x == m * q + r && r < m && q == n * q1 + d && d < n && base == m * n
    ensures base > 0 && x % base == r + m * d
  {
    Compose(m, n, q1, d, r);
    DigitsBelow(m, n, d, r);
    DivMod(x, base, q1, m * d + r);
  }

  /** The low digit in base `m` and the next one in base `n` make one in base m * n. */
  lemma TwoDigits(x: nat, m: nat, n: nat)
    requires m > 0 && n > 0
    ensures x % Times(m, n) == x % m + m * (x / m % n)
  {
    var q := x / m;
    TwoDigitsOf(x, m, n, q, x % m, q / n, q % n, Times(m, n));
  }

  /** Blocks of the whole memory. */
  function Capacity(cfg: Config): nat {
    Times(Span(cfg.channels), Times(Span(cfg.banks), Times(Span(cfg.columns), Times(Span(cfg.ranks), Span(cfg.rows)))))
  }

  lemma FiveDigits(x: nat, a: nat, b: nat, c: nat, d: nat, e: nat)
    requires a > 0 && b > 0 && c > 0 && d > 0 && e > 0
    ensures Times(a, Times(b, Times(c, Times(d, e)))) > 0
    ensures x % Times(a, Times(b, Times(c, Times(d, e)))) ==
      x % a + a * (x / a % b + b * (x / a / b % c + c * (x / a / b / c % d + d * (x / a / b / c / d % e))))
  {
    hide Times;
    var x1 := x / a;
    var x2 := x1 / b;
    var x3 := x2 / c;
    var t3 := Times(d, e);
    var t2 := Times(c, t3);
    TwoDigits(x3, d, e);
    TwoDigits(x2, c, t3);
    TwoDigits(x1, b, t2);
    TwoDigits(x, a, Times(b, t2));
  }

  lemma FieldsRebuildTheBlock(cfg: Config, address: nat)
    requires cfg.Valid()
    ensures Capacity(cfg) > 0
    ensures Block(cfg, address) % Capacity(cfg) ==
      ChannelOf(cfg, address) + Span(cfg.channels) * (
        BankOf(cfg, address) + Span(cfg.banks) * (
          ColumnOf(cfg, address) + Span(cfg.columns) * (
            RankOf(cfg, address) + Span(cfg.ranks) * RowOf(cfg, address))))
  {
    hide Span; hide Times;
    SpanBounds(cfg.channels); SpanBounds(cfg.banks); SpanBounds(cfg.columns); SpanBounds(cfg.ranks);
    SpanBounds(cfg.rows);
    FiveDigits(Block(cfg, address), Span(cfg.channels), Span(cfg.banks), Span(cfg.columns), Span(cfg.ranks),
        Span(cfg.rows));
  }

  lemma ModSmall(x: nat, m: nat)
    requires x < m
    ensures x % m == x
  {
  }

  /** Two blocks of the memory that share every field are the same block. */
  lemma FieldsIdentifyTheBlock(cfg: Config, a: nat, b: nat)
    requires cfg.Valid() && Block(cfg, a) < Capacity(cfg) && Block(cfg, b) < Capacity(cfg)
    ensures Block(cfg, a) == Block(cfg, b) <==>
      && ChannelOf(cfg, a) == ChannelOf(cfg, b) && BankOf(cfg, a) == BankOf(cfg, b)
      && ColumnOf(cfg, a) == ColumnOf(cfg, b) && RankOf(cfg, a) == RankOf(cfg, b) && RowOf(cfg, a) == RowOf(cfg, b)
  {
    hide Span; hide Capacity;
    FieldsRebuildTheBlock(cfg, a);
    FieldsRebuildTheBlock(cfg, b);
    ModSmall(Block(cfg, a), Capacity(cfg));
    ModSmall(Block(cfg, b), Capacity(cfg));
  }

  /** Each rank and bank has a bank request of its own. */
  lemma OpIndexIdentifiesTheBank(cfg: Config, a: nat, b: nat)
    requires cfg.Valid()
    ensures OpIndex(cfg, a) == OpIndex(cfg, b) <==> RankOf(cfg, a) == RankOf(cfg, b) && BankOf(cfg, a) == BankOf(cfg, b)
    ensures OpIndex(cfg, a) / cfg.banks == RankOf(cfg, a) && OpIndex(cfg, a) % cfg.banks == BankOf(cfg, a)
  {
    hide RankOf, BankOf;
    BankFits(cfg, a);
    BankFits(cfg, b);
    DigitsOf(RankOf(cfg, a), BankOf(cfg, a), cfg.banks);
    DigitsOf(RankOf(cfg, b), BankOf(cfg, b), cfg.banks);
  }

  lemma BankFits(cfg: Config, a: nat)
    requires cfg.Valid()
    ensures BankOf(cfg, a) < cfg.banks
  {
    SpanBounds(cfg.banks);
  }

  lemma DigitsOf(q: nat, r: nat, n: nat)
    requires r < n
    ensures (q * n + r) / n == q && (q * n + r) % n == r
  {
    var x := q * n + r;
    assert x == n * (x / n) + x % n;
    if x / n > q {
      Ordered(q + 1, x / n, n);
    } else if x / n < q {
      Ordered(x / n + 1, q, n);
    }
  }

  lemma Ordered(a: nat, b: nat, n: nat)
    requires a <= b
    ensures n * a <= n * b
  {
  }
}
