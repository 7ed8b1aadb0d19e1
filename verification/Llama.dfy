/**
 The contract of the native inference library. What a model computes is left
 uninterpreted: a new KV cell is some function of the cells it attends to, logits
 are some function of the cells up to their position. A sequence is a map from
 positions to cells.
 */
module Llama {
  import opened Wrappers

  type Token(==,0,!new)
  type Cell(==,0,!new)
  type Logits(==,0,!new)
  type Sampler(==,0,!new)
  type Decoder(==,0,!new)

  type Cells = map<nat, Cell>

  datatype SamplerKind = Greedy | Temperature(t: real)

  datatype Model = Model(
    cell: (Cells, nat, Token) -> Cell,
    logits: Cells -> Logits,
    tokenize: string -> seq<Token>,
    endsGeneration: Token -> bool,
    newSampler: SamplerKind -> Sampler,
    accept: (Sampler, Token) -> Sampler,
    sample: (Sampler, Logits) -> (Token, Sampler),
    newDecoder: Decoder,
    piece: (Decoder, Token) -> (string, Decoder),
    embedding: int, layers: int, heads: int, kvHeads: int)

  const SEQUENCES: nat := 3
  const COMMITTED: nat := 0
  const GENERATION: nat := 1
  const CANDIDATE: nat := 2

  /** A context: its token capacity, its sequences, and the logits of the last decode. */
  datatype RawContext = Context(capacity: nat, sequences: seq<Cells>, logits: Option<Logits>)

  type Context = c: RawContext | |c.sequences| == SEQUENCES witness Context(0, [map[], map[], map[]], None)

  datatype BatchEntry = BatchEntry(token: Token, position: nat, sequence: nat, wantsLogits: bool)

  // ------------------------------------------------------------- operations

  function NewContext(capacity: nat): Context {
    Context(capacity, [map[], map[], map[]], None)
  }

  function ClearSequence(c: Context, s: nat): (r: Context)
    requires s < SEQUENCES
  {
    c.(sequences := c.sequences[s := map[]])
  }

  /** Removes the positions `from <= p < to` of one sequence. */
  function ClearRange(c: Context, s: nat, from: nat, to: nat): (r: Context)
    requires s < SEQUENCES
  {
    c.(sequences := c.sequences[s := map p: nat | p in c.sequences[s] && !(from <= p < to) :: c.sequences[s][p]])
  }

  /** Copies the cells of a sequence; only a cleared target has a defined outcome.
      Logits are not copied. */
  function CopySequence(c: Context, source: nat, target: nat): (r: Context)
    requires source < SEQUENCES && target < SEQUENCES && c.sequences[target] == map[]
  {
    c.(sequences := c.sequences[target := c.sequences[source]])
  }

  /** Exactly the positions below `n` are filled. */
  ghost predicate Filled(cells: Cells, n: nat) {
    forall p: nat :: p in cells <==> p < n
  }

  function Below(cells: Cells, n: nat): Cells {
    map p: nat | p in cells && p < n :: cells[p]
  }

  /** The next free position of the sequence, within the capacity. */
  ghost predicate Next(c: Context, e: BatchEntry) {
    e.sequence < SEQUENCES && e.position < c.capacity && Filled(c.sequences[e.sequence], e.position)
  }

  function DecodeOne(m: Model, c: Context, e: BatchEntry): (r: Context)
    requires Next(c, e)
  {
    var cells := c.sequences[e.sequence];
    var now: Cells := cells[e.position := m.cell(Below(cells, e.position), e.position, e.token)];
    Context(c.capacity, c.sequences[e.sequence := now],
            if e.wantsLogits then Some(m.logits(Below(now, e.position + 1))) else c.logits)
  }

  /** Every entry goes to the next free position at its turn. */
  ghost predicate Contiguous(m: Model, c: Context, batch: seq<BatchEntry>)
    decreases batch
  {
    batch == [] || (Next(c, batch[0]) && Contiguous(m, DecodeOne(m, c, batch[0]), batch[1..]))
  }

  ghost function DecodeEntries(m: Model, c: Context, batch: seq<BatchEntry>): (r: Context)
    requires Contiguous(m, c, batch)
    decreases batch
  {
    if batch == [] then c else DecodeEntries(m, DecodeOne(m, c, batch[0]), batch[1..])
  }

  /** A batch decode is a run of single decodes; logits of earlier decodes are lost. */
  method Decode(m: Model, c: Context, batch: seq<BatchEntry>) returns (r: Context)
    requires Contiguous(m, c.(logits := None), batch)
    ensures r == DecodeEntries(m, c.(logits := None), batch)
  {
    r := c.(logits := None);
    for i := 0 to |batch|
      invariant Contiguous(m, r, batch[i..])
      invariant DecodeEntries(m, c.(logits := None), batch) == DecodeEntries(m, r, batch[i..])
    {
      assert batch[i..][0] == batch[i] && batch[i..][1..] == batch[i + 1..];
      r := DecodeOne(m, r, batch[i]);
    }
    assert batch[|batch|..] == [];
  }

  // ------------------------------------------------ cells of a token prefix

  /** The cells that decoding `tokens` from position zero leaves behind. */
  ghost function PrefixCells(m: Model, tokens: seq<Token>): Cells {
    if tokens == [] then map[]
    else
      var n := |tokens| - 1;
      var before := PrefixCells(m, tokens[..n]);
      before[n := m.cell(before, n, tokens[n])]
  }

  /** The logits that follow a token prefix. */
  ghost function PrefixLogits(m: Model, tokens: seq<Token>): Logits {
    m.logits(PrefixCells(m, tokens))
  }

  lemma {:induction false} PrefixFilled(m: Model, tokens: seq<Token>)
    ensures Filled(PrefixCells(m, tokens), |tokens|)
  {
    if tokens != [] { PrefixFilled(m, tokens[..|tokens| - 1]); }
  }

  lemma PrefixPush(m: Model, tokens: seq<Token>, token: Token)
    ensures PrefixCells(m, tokens + [token]) ==
            PrefixCells(m, tokens)[|tokens| := m.cell(PrefixCells(m, tokens), |tokens|, token)]
  {
    assert (tokens + [token])[..|tokens|] == tokens;
  }

  lemma BelowFilled(cells: Cells, n: nat)
    requires Filled(cells, n)
    ensures Below(cells, n) == cells
  {
  }

  /** Decoding one token after a prefix extends the prefix by it. */
  lemma DecodeOneExtends(m: Model, c: Context, e: BatchEntry, tokens: seq<Token>)
    requires e.sequence < SEQUENCES && e.position == |tokens| < c.capacity
    requires c.sequences[e.sequence] == PrefixCells(m, tokens)
    ensures Next(c, e)
    ensures var r := DecodeOne(m, c, e);
            && r.sequences[e.sequence] == PrefixCells(m, tokens + [e.token])
            && (forall s: nat | s < SEQUENCES && s != e.sequence :: r.sequences[s] == c.sequences[s])
            && r.capacity == c.capacity
            && r.logits == if e.wantsLogits then Some(PrefixLogits(m, tokens + [e.token])) else c.logits
  {
    PrefixFilled(m, tokens);
    BelowFilled(PrefixCells(m, tokens), |tokens|);
    PrefixPush(m, tokens, e.token);
    PrefixFilled(m, tokens + [e.token]);
    BelowFilled(PrefixCells(m, tokens + [e.token]), |tokens| + 1);
  }

  /** The batch that queues `tokens[from..]` at their absolute positions on the
      generation sequence, asking for the logits of the last token. */
  ghost predicate ReplayBatch(batch: seq<BatchEntry>, tokens: seq<Token>, from: nat) {
    && from <= |tokens| && |batch| == |tokens| - from
    && forall i | 0 <= i < |batch| ::
         batch[i] == BatchEntry(tokens[from + i], from + i, GENERATION, from + i + 1 == |tokens|)
  }

  /** Replaying the rest of a prompt after any prefix of it gives the whole prompt,
      with the logits of its last token, and touches no other sequence. */
  lemma {:induction false} ReplayExtends(m: Model, c: Context, batch: seq<BatchEntry>, tokens: seq<Token>, from: nat)
    requires ReplayBatch(batch, tokens, from) && |tokens| <= c.capacity
    requires c.sequences[GENERATION] == PrefixCells(m, tokens[..from])
    ensures Contiguous(m, c, batch)
    ensures var r := DecodeEntries(m, c, batch);
            && r.sequences == c.sequences[GENERATION := PrefixCells(m, tokens)]
            && r.capacity == c.capacity
            && r.logits == if from < |tokens| then Some(PrefixLogits(m, tokens)) else c.logits
    decreases batch
  {
    if batch == [] {
      assert tokens[..from] == tokens;
    } else {
      assert batch[0] == BatchEntry(tokens[from], from, GENERATION, from + 1 == |tokens|);
      DecodeOneExtends(m, c, batch[0], tokens[..from]);
      assert tokens[..from] + [tokens[from]] == tokens[..from + 1];
      var next := DecodeOne(m, c, batch[0]);
      ReplayExtends(m, next, batch[1..], tokens, from + 1);
      if from + 1 == |tokens| { assert tokens[..from + 1] == tokens; }
    }
  }

  /** Clearing the last position of a prefix leaves the shorter prefix. */
  lemma RewindOne(m: Model, c: Context, tokens: seq<Token>)
    requires tokens != [] && c.sequences[GENERATION] == PrefixCells(m, tokens)
    ensures ClearRange(c, GENERATION, |tokens| - 1, |tokens|).sequences ==
            c.sequences[GENERATION := PrefixCells(m, tokens[..|tokens| - 1])]
  {
    PrefixFilled(m, tokens);
    PrefixFilled(m, tokens[..|tokens| - 1]);
    var cut := ClearRange(c, GENERATION, |tokens| - 1, |tokens|).sequences[GENERATION];
    assert cut == PrefixCells(m, tokens[..|tokens| - 1]);
  }
}
