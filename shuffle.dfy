/**
 * The space-card shuffles of 22/src/lib.rs: a deck of cards numbered from
 * zero is cut, reversed or dealt with an increment, instruction by
 * instruction, and a single card can be tracked through the same
 * instructions without building the deck.
 */
module Shuffle {
  import opened Wrappers
  import opened Text
  import opened Seqs
  import opened RustInt

  type Deck = seq<int>

  datatype Instruction = NewStack | Increment(n: int) | Cut(n: int)

  /** `create_cards(n)`: the cards `0..n` in order; a negative `n` gives no cards. */
  function CreateCards(n: int): (deck: Deck)
    ensures |deck| == if n < 0 then 0 else n
    ensures forall i :: 0 <= i < |deck| ==> deck[i] == i
  {
    if n <= 0 then [] else CreateCards(n - 1) + [n - 1]
  }

  /** Where `cut` splits a deck of `len` cards: `n`, or `len + n` for a negative `n`. */
  function CutPoint(len: int, n: int): int
  {
    if n < 0 then len + n else n
  }

  /** `cut` indexes the deck at every point of `cut_point..len` and `0..cut_point`, so the point must be in range. */
  predicate CanCut(len: nat, n: int) {
    0 <= CutPoint(len, n) <= len
  }

  /** `cut`: the cards from the cut point to the end, then the ones before it. */
  method CutDeck(deck: Deck, n: int) returns (newDeck: Deck)
    requires CanCut(|deck|, n)
    ensures newDeck == deck[CutPoint(|deck|, n)..] + deck[..CutPoint(|deck|, n)]
  {
    var len := |deck|;
    var cutPoint := CutPoint(len, n);
    newDeck := [];
    for i := cutPoint to len
      invariant newDeck == deck[cutPoint..i]
    {
      newDeck := newDeck + [deck[i]];
    }
    for i := 0 to cutPoint
      invariant newDeck == deck[cutPoint..] + deck[..i]
    {
      newDeck := newDeck + [deck[i]];
    }
  }

  /** Cutting at `c` and then at `len - c` restores the deck. */
  lemma CutUndo(deck: Deck, c: nat)
    requires c <= |deck|
    ensures var cut := deck[c..] + deck[..c]; cut[|deck| - c..] + cut[..|deck| - c] == deck
  {
  }

  /** `deal_into_new_stack`: the deck in reverse order. */
  function DealIntoNewStack(deck: Deck): (r: Deck)
    ensures |r| == |deck|
    ensures forall i :: 0 <= i < |deck| ==> r[i] == deck[|deck| - 1 - i]
  {
    Reverse(deck)
  }

  /** Dealing into a new stack twice gives back the deck. */
  lemma NewStackTwice(deck: Deck)
    ensures DealIntoNewStack(DealIntoNewStack(deck)) == deck
  {
    ReverseReverse(deck);
  }

  /** Where `deal_with_increment` puts the card at index `i` of a deck of `len` cards. */
  function Slot(i: nat, n: nat, len: nat): nat
    requires len > 0
  {
    (i * n) % len
  }

  /** The new deck after the first `k` cards are dealt: zeros, with each dealt card written over its slot. */
  function DealtSoFar(deck: Deck, n: nat, k: nat): (r: Deck)
    requires k <= |deck|
    ensures |r| == |deck|
  {
    if k == 0 then seq(|deck|, _ => 0)
    else DealtSoFar(deck, n, k - 1)[Slot(k - 1, n, |deck|) := deck[k - 1]]
  }

  /**
   * `deal_with_increment`: the card at index `i` goes to `(i * n) % len`,
   * a later card overwriting an earlier one in the same slot. A negative
   * increment is wrapped by `as usize` in the source and is left out.
   */
  method DealWithIncrement(deck: Deck, n: nat) returns (newDeck: Deck)
    ensures newDeck == DealtSoFar(deck, n, |deck|)
  {
    var cards := new int[|deck|](_ => 0);
    for i := 0 to cards.Length
      invariant cards[..] == DealtSoFar(deck, n, i)
    {
      var offset := (i * n) % |deck|;
      cards[offset] := deck[i];
    }
    newDeck := cards[..];
  }

  lemma ModAddMultiple(x: int, k: int, l: int)
    requires l > 0
    ensures (l * k + x) % l == x % l
  {
    var y := l * k + x;
    var t := y / l - k - x / l;
    assert l * t == x % l - y % l;
    if t >= 1 {
      MulAtLeast(l, t);
    } else if t <= -1 {
      MulAtLeast(l, -t);
    }
  }

  lemma MulAtLeast(l: int, t: int)
    requires l > 0 && t >= 1
    ensures l * t >= l
  {
  }

  /** Reducing a factor modulo `l` first does not change the product modulo `l`. */
  lemma ModMul(a: int, b: int, l: int)
    requires l > 0
    ensures ((a % l) * b) % l == (a * b) % l
  {
    var q := a / l;
    assert a == l * q + a % l;
    assert a * b == l * (q * b) + (a % l) * b;
    ModAddMultiple((a % l) * b, q * b, l);
  }

  /** `m` undoes the increment `n`: `n * m` is 1 modulo `len`, which holds for some `m` exactly when `n` and `len` are coprime. */
  predicate Undoes(n: nat, m: nat, len: nat) {
    len > 1 && (n * m) % len == 1
  }

  /** Multiplying by a number that is 1 modulo `len` leaves a residue unchanged. */
  lemma TimesInverse(i: int, q: int, len: int)
    requires len > 1 && q % len == 1 && 0 <= i < len
    ensures (q * i) % len == i
  {
    ModMul(q, i, len);
  }

  lemma MulAssoc(a: int, b: int, c: int)
    ensures (a * b) * c == (b * c) * a
  {
  }

  /** Multiplying the slot of `i` by `m` gives back `i`. */
  lemma SlotInverse(i: nat, n: nat, m: nat, len: nat)
    requires Undoes(n, m, len) && i < len
    ensures Slot(Slot(i, n, len), m, len) == i
  {
    ModMul(i * n, m, len);
    MulAssoc(i, n, m);
    TimesInverse(i, n * m, len);
  }

  /** With an increment that can be undone, no two cards share a slot. */
  lemma SlotInjective(i: nat, j: nat, n: nat, m: nat, len: nat)
    requires Undoes(n, m, len) && i < len && j < len && Slot(i, n, len) == Slot(j, n, len)
    ensures i == j
  {
    SlotInverse(i, n, m, len);
    SlotInverse(j, n, m, len);
  }

  /** Once card `i` is dealt, no later card overwrites it. */
  lemma {:induction false} DealtStays(deck: Deck, n: nat, m: nat, i: nat, k: nat)
    requires Undoes(n, m, |deck|) && i < k <= |deck|
    ensures DealtSoFar(deck, n, k)[Slot(i, n, |deck|)] == deck[i]
  {
    if k - 1 != i {
      DealtStays(deck, n, m, i, k - 1);
      if Slot(k - 1, n, |deck|) == Slot(i, n, |deck|) {
        SlotInjective(k - 1, i, n, m, |deck|);
      }
    }
  }

  /**
   * With an increment that can be undone, dealing is a permutation: card
   * `i` lands in slot `(i * n) % len`, and slot `j` holds card `(j * m) % len`.
   */
  lemma DealPermutes(deck: Deck, n: nat, m: nat)
    requires Undoes(n, m, |deck|)
    ensures forall i :: 0 <= i < |deck| ==> DealtSoFar(deck, n, |deck|)[Slot(i, n, |deck|)] == deck[i]
    ensures forall j :: 0 <= j < |deck| ==> DealtSoFar(deck, n, |deck|)[j] == deck[Slot(j, m, |deck|)]
  {
    var len := |deck|;
    forall i | 0 <= i < len ensures DealtSoFar(deck, n, len)[Slot(i, n, len)] == deck[i] {
      DealtStays(deck, n, m, i, len);
    }
    forall j | 0 <= j < len ensures DealtSoFar(deck, n, len)[j] == deck[Slot(j, m, len)] {
      SlotInverse(j, m, n, len) by {
        assert m * n == n * m;
      }
      DealtStays(deck, n, m, Slot(j, m, len), len);
    }
  }

  /** The instruction can be applied to a deck of `len` cards without a panic. */
  predicate Applicable(ins: Instruction, len: nat) {
    match ins
    case NewStack => true
    case Cut(n) => CanCut(len, n)
    case Increment(n) => n >= 0
  }

  /** One instruction applied to the deck. */
  function Apply(deck: Deck, ins: Instruction): (r: Deck)
    requires Applicable(ins, |deck|)
    ensures |r| == |deck|
  {
    match ins
    case NewStack => DealIntoNewStack(deck)
    case Cut(n) => deck[CutPoint(|deck|, n)..] + deck[..CutPoint(|deck|, n)]
    case Increment(n) => DealtSoFar(deck, n, |deck|)
  }

  predicate AllApplicable(instructions: seq<Instruction>, len: nat) {
    forall k :: 0 <= k < |instructions| ==> Applicable(instructions[k], len)
  }

  /** The instructions applied in order. */
  function ApplyAll(deck: Deck, instructions: seq<Instruction>): (r: Deck)
    requires AllApplicable(instructions, |deck|)
    ensures |r| == |deck|
    decreases |instructions|
  {
    if instructions == [] then deck
    else ApplyAll(Apply(deck, instructions[0]), instructions[1..])
  }

  /** `shuffle` after parsing: each instruction replaces the deck. */
  method ShuffleDeck(instructions: seq<Instruction>, deckSize: int) returns (deck: Deck)
    requires AllApplicable(instructions, |CreateCards(deckSize)|)
    ensures deck == ApplyAll(CreateCards(deckSize), instructions)
  {
    deck := CreateCards(deckSize);
    for k := 0 to |instructions|
      invariant |deck| == |CreateCards(deckSize)|
      invariant ApplyAll(deck, instructions[k..]) == ApplyAll(CreateCards(deckSize), instructions)
    {
      assert instructions[k..][1..] == instructions[k + 1..];
      match instructions[k]
      case Cut(n) =>
        deck := CutDeck(deck, n);
      case NewStack =>
        deck := DealIntoNewStack(deck);
      case Increment(n) =>
        deck := DealWithIncrement(deck, n);
    }
  }

  /** `shuffle_track_card`'s step: the new index of the card at `loc` in a deck of `size` cards. */
  function TrackStep(size: int, loc: int, ins: Instruction): int
    requires size > 0
  {
    match ins
    case Cut(n) =>
      var cutPoint := CutPoint(size, n);
      if loc < cutPoint then size - cutPoint + loc else loc - cutPoint
    case NewStack => size - loc - 1
    case Increment(n) => TruncRem(loc * n, size)
  }

  /** The card's index after all the instructions. */
  function TrackAll(size: int, loc: int, instructions: seq<Instruction>): int
    requires size > 0
    decreases |instructions|
  {
    if instructions == [] then loc
    else TrackAll(size, TrackStep(size, loc, instructions[0]), instructions[1..])
  }

  /** `shuffle_track_card` after parsing: the card's index is updated instruction by instruction. */
  method TrackCard(instructions: seq<Instruction>, deckSize: int, card: int) returns (cardLoc: int)
    requires deckSize > 0
    ensures cardLoc == TrackAll(deckSize, card, instructions)
  {
    cardLoc := card;
    for k := 0 to |instructions|
      invariant TrackAll(deckSize, cardLoc, instructions[k..]) == TrackAll(deckSize, card, instructions)
    {
      assert instructions[k..][1..] == instructions[k + 1..];
      match instructions[k]
      case Cut(n) =>
        var cutPoint := if n < 0 then deckSize + n else n;
        if cardLoc < cutPoint {
          cardLoc := deckSize - cutPoint + cardLoc;
        } else {
          cardLoc := cardLoc - cutPoint;
        }
      case NewStack =>
        cardLoc := deckSize - cardLoc - 1;
      case Increment(n) =>
        cardLoc := TruncRem(cardLoc * n, deckSize);
    }
  }

  /** Every increment among the instructions can be undone modulo `len`. */
  ghost predicate Invertible(instructions: seq<Instruction>, len: nat) {
    forall k :: 0 <= k < |instructions| && instructions[k].Increment? ==>
      instructions[k].n >= 0 && exists m: nat :: Undoes(instructions[k].n, m, len)
  }

  /** One step of the tracker follows the card through one instruction. */
  lemma TrackStepFollows(deck: Deck, ins: Instruction, loc: nat)
    requires Applicable(ins, |deck|) && loc < |deck|
    requires ins.Increment? ==> exists m: nat :: Undoes(ins.n, m, |deck|)
    ensures 0 <= TrackStep(|deck|, loc, ins) < |deck|
    ensures Apply(deck, ins)[TrackStep(|deck|, loc, ins)] == deck[loc]
  {
    match ins
    case NewStack =>
    case Cut(n) =>
    case Increment(n) =>
      var m: nat :| Undoes(n, m, |deck|);
      DealPermutes(deck, n, m);
  }

  /**
   * The tracker agrees with the shuffle: the card at `loc` before the
   * instructions is at `TrackAll(len, loc, …)` after them.
   */
  lemma {:induction false} TrackFollows(deck: Deck, instructions: seq<Instruction>, loc: nat)
    requires AllApplicable(instructions, |deck|) && Invertible(instructions, |deck|) && loc < |deck|
    ensures 0 <= TrackAll(|deck|, loc, instructions) < |deck|
    ensures ApplyAll(deck, instructions)[TrackAll(|deck|, loc, instructions)] == deck[loc]
    decreases |instructions|
  {
    if instructions != [] {
      TrackStepFollows(deck, instructions[0], loc);
      var next := Apply(deck, instructions[0]);
      var rest := instructions[1..];
      assert AllApplicable(rest, |next|) by {
        forall k | 0 <= k < |rest| ensures Applicable(rest[k], |next|) {
          assert rest[k] == instructions[k + 1];
        }
      }
      assert Invertible(rest, |next|) by {
        forall k | 0 <= k < |rest| && rest[k].Increment? ensures exists m: nat :: Undoes(rest[k].n, m, |next|) {
          assert rest[k] == instructions[k + 1];
        }
      }
      TrackFollows(next, rest, TrackStep(|deck|, loc, instructions[0]));
    }
  }

  /** Starting from cards in order, the tracked card ends where the shuffle puts it. */
  lemma TrackAgreesWithShuffle(instructions: seq<Instruction>, deckSize: nat, card: nat)
    requires card < deckSize
    requires AllApplicable(instructions, deckSize) && Invertible(instructions, deckSize)
    ensures 0 <= TrackAll(deckSize, card, instructions) < deckSize
    ensures ApplyAll(CreateCards(deckSize), instructions)[TrackAll(deckSize, card, instructions)] == card
  {
    TrackFollows(CreateCards(deckSize), instructions, card);
  }

  /** The order `example_1` expects: card `(3 * j) % 10` at index `j`, 3 undoing increment 7 on ten cards. */
  lemma ExampleOneSlots(expected: Deck)
    requires expected == [0, 3, 6, 9, 2, 5, 8, 1, 4, 7]
    ensures Undoes(7, 3, 10)
    ensures |expected| == 10 && forall j :: 0 <= j < 10 ==> expected[j] == Slot(j, 3, 10)
  {
  }

  /** Two new stacks after an increment cancel out. */
  lemma IncrementThenTwoStacks(deck: Deck, n: nat)
    ensures AllApplicable([Increment(n), NewStack, NewStack], |deck|)
    ensures ApplyAll(deck, [Increment(n), NewStack, NewStack]) == DealtSoFar(deck, n, |deck|)
  {
    var dealt := Apply(deck, Increment(n));
    assert ApplyAll(deck, [Increment(n), NewStack, NewStack]) == ApplyAll(dealt, [NewStack, NewStack]);
    assert ApplyAll(dealt, [NewStack, NewStack]) == DealIntoNewStack(DealIntoNewStack(dealt)) by {
      assert [NewStack, NewStack][1..] == [NewStack];
      assert [NewStack][1..] == [];
    }
    NewStackTwice(dealt);
  }

  /** `example_1`: increment 7, then two new stacks, on ten cards. */
  lemma ExampleOne(deck: Deck, expected: Deck)
    requires deck == CreateCards(10)
    requires expected == [0, 3, 6, 9, 2, 5, 8, 1, 4, 7]
    ensures AllApplicable([Increment(7), NewStack, NewStack], |deck|)
    ensures ApplyAll(deck, [Increment(7), NewStack, NewStack]) == expected
  {
    IncrementThenTwoStacks(deck, 7);
    ExampleOneSlots(expected);
    DealPermutes(deck, 7, 3);
    assert DealtSoFar(deck, 7, |deck|) == expected;
  }

  /** A line of the instructions that matches none of the three forms; the source panics on it. */
  datatype ParseError = UnexpectedLine(line: nat)

  /** `inst.split(' ')` for the trimmed line. */
  function Components(line: string): (c: seq<string>)
    ensures |c| >= 1
  {
    Split(Trim(line), " ")
  }

  /** The words of a line starting with "deal": the fourth is "stack", or the third is "increment". */
  function ParseDeal(c: seq<string>): Option<Instruction>
  {
    if |c| < 4 then None
    else if c[3] == "stack" then Some(NewStack)
    else if c[2] == "increment" then
      // `parse().unwrap()` panics on an argument that is not an integer
      match ParseInt(c[3])
      case Some(n) => Some(Increment(n))
      case None => None
    else None
  }

  /**
   * One line: "cut N", "deal … stack" (the fourth word), or "deal _
   * increment N". Indexing past the words, an integer that does not parse
   * and any other first word all panic in the source.
   */
  function ParseInstruction(line: string): Option<Instruction>
  {
    var c := Components(line);
    if c[0] == "cut" then
      if |c| < 2 then None
      else
        match ParseInt(c[1])
        case Some(n) => Some(Cut(n))
        case None => None
    else if c[0] == "deal" then ParseDeal(c)
    else None
  }

  /** Line `index` parsed, or the error naming it. */
  function ParseLine(line: string, index: nat): (r: Result<Instruction, ParseError>)
    ensures r.Ok? <==> ParseInstruction(line).Some?
    ensures r.Ok? ==> ParseInstruction(line) == Some(r.value)
    ensures r.Err? ==> r.error.line == index
  {
    match ParseInstruction(line)
    case Some(ins) => Ok(ins)
    case None => Err(UnexpectedLine(index))
  }

  /** The lines parsed in order, or the first line that does not parse. */
  function ParseLines(lines: seq<string>): (r: Result<seq<Instruction>, ParseError>)
    ensures r.Ok? ==> |r.value| == |lines|
    ensures r.Ok? ==> forall i :: 0 <= i < |lines| ==> ParseInstruction(lines[i]) == Some(r.value[i])
    ensures r.Err? ==> r.error.line < |lines| && ParseInstruction(lines[r.error.line]).None?
    ensures r.Err? ==> forall i :: 0 <= i < r.error.line ==> ParseInstruction(lines[i]).Some?
  {
    ParseEach(lines, ParseLine)
  }

  /** `parse_instructions`: the lines of the trimmed text. */
  function ParseInstructions(text: string): Result<seq<Instruction>, ParseError>
  {
    ParseLines(Lines(Trim(text)))
  }

  /** `shuffle`: parse the instructions, then shuffle a fresh deck. */
  method ShuffleText(text: string, deckSize: int) returns (r: Result<Deck, ParseError>)
    requires ParseInstructions(text).Ok? ==> AllApplicable(ParseInstructions(text).value, |CreateCards(deckSize)|)
    ensures r.Err? <==> ParseInstructions(text).Err?
    ensures r.Err? ==> r.error == ParseInstructions(text).error
    ensures r.Ok? ==> r.value == ApplyAll(CreateCards(deckSize), ParseInstructions(text).value)
  {
    var instructions :- ParseInstructions(text);
    var deck := ShuffleDeck(instructions, deckSize);
    return Ok(deck);
  }

  /** `shuffle_track_card`: parse the instructions, then track the card. */
  method ShuffleTrackCard(text: string, deckSize: int, card: int) returns (r: Result<int, ParseError>)
    requires deckSize > 0
    ensures r.Err? <==> ParseInstructions(text).Err?
    ensures r.Err? ==> r.error == ParseInstructions(text).error
    ensures r.Ok? ==> r.value == TrackAll(deckSize, card, ParseInstructions(text).value)
  {
    var instructions :- ParseInstructions(text);
    var loc := TrackCard(instructions, deckSize, card);
    return Ok(loc);
  }
}
