/**
 Provider-aware pricing: exact rate cards, a frozen quote taken before the call, and the
 conversion of a provider's usage report into pico-US dollars with checked 64-bit arithmetic.
 */
module Billing {

  const MAX_INT64: int := 0x7FFF_FFFF_FFFF_FFFF

  /** A Go int64. */
  type Int64 = x: int | -MAX_INT64 - 1 <= x <= MAX_INT64

  datatype Option<+T> = None | Some(value: T)

  datatype Error = UnknownRateCard | CostOverflow

  datatype Result<+T> = Ok(value: T) | Err(error: Error)

  // ---------------------------------------------------------------- checked arithmetic

  lemma QuotientBound(a: int, b: int)
    requires a > 0 && b >= 0
    ensures b <= MAX_INT64 / a <==> a * b <= MAX_INT64
  {
    var q, r := MAX_INT64 / a, MAX_INT64 % a;
    assert MAX_INT64 == a * q + r;
    if b <= q {
      assert a * b <= a * q;
    } else {
      assert a * b >= a * (q + 1) == a * q + a;
    }
  }

  /** Succeeds exactly when both factors are non-negative and the product fits in an int64. */
  function CheckedMul(a: Int64, b: Int64): (r: Option<Int64>)
    ensures r.Some? <==> a >= 0 && b >= 0 && a * b <= MAX_INT64
    ensures r.Some? ==> r.value == a * b && r.value >= 0
  {
    if a < 0 || b < 0 then None
    else if a == 0 then Some(0)
    else
      QuotientBound(a, b);
      if b > MAX_INT64 / a then None
      else
        assert a * b >= 0;
        Some(a * b)
  }

  /** Succeeds exactly when both terms are non-negative and the sum fits in an int64. */
  function CheckedAdd(a: Int64, b: Int64): (r: Option<Int64>)
    ensures r.Some? <==> a >= 0 && b >= 0 && a + b <= MAX_INT64
    ensures r.Some? ==> r.value == a + b
  {
    if a < 0 || b < 0 || a > MAX_INT64 - b then None else Some(a + b)
  }

  function Clip(v: Int64): Int64 { if v < 0 then 0 else v }

  function Max(a: Int64, b: Int64): Int64 { if a < b then b else a }

  // ---------------------------------------------------------------- charge exposure

  /** What can be proved about a provider charge when a call fails before any response body. */
  datatype Exposure = ChargePossible | DefinitelyUnbilled

  /** Only the one explicit proof permits a refund. */
  predicate MayHaveCharged(e: Exposure) { e != DefinitelyUnbilled }

  // ---------------------------------------------------------------- rate cards

  datatype Provider = ProviderQwen | UnknownProvider(name: string)

  datatype Model =
    | Qwen37Plus | Qwen3ASRFlashRealtime | QwenImage20 | QwenAudio30TTSFlash
    | Wan27T2V | Wan27I2V | QwenTTSClone | OtherModel(name: string)

  datatype InputClass =
    InputStandard | InputAudioSeconds | InputImages | InputCharacters | InputVideoSeconds | InputVoices

  datatype Tier = Tier(upperBound: Int64, input: Int64, cacheHit: Int64, output: Int64)

  /** The immutable identities of the published cards. */
  datatype CardId =
    | ChatCard // qwen3.7-plus-sg-thinking-2026-07-24
    | TranscriptionCard // qwen3-asr-flash-realtime-sg-2026-07-24
    | ImageCard // qwen-image-2.0-assumed-2026-07-27
    | SpeechCard // qwen-audio-3.0-tts-flash-assumed-2026-07-28
    | TextVideoCard // wan2.7-t2v-assumed-2026-07-27
    | ImageVideoCard // wan2.7-i2v-2026-04-25-720p-conservative-2026-08-06
    | VoiceCard // qwen-tts-clone-2026-07-28

  datatype RateCard = RateCard(id: CardId, inputLimit: Int64, outputLimit: Int64, tiers: seq<Tier>)

  const QWEN37_INPUT_LIMIT: Int64 := 1_000_000
  const QWEN37_OUTPUT_LIMIT: Int64 := 65_536

  function UnitCard(id: CardId, limit: Int64, price: Int64): RateCard {
    RateCard(id, limit, 0, [Tier(limit, price, 0, 0)])
  }

  function Lookup(provider: Provider, model: Model): Result<RateCard> {
    if provider != ProviderQwen then Err(UnknownRateCard) else
      match model
      case Qwen37Plus =>
        Ok(RateCard(ChatCard, QWEN37_INPUT_LIMIT, QWEN37_OUTPUT_LIMIT,
                    [Tier(256_000, 1_600_000, 320_000, 1_600_000),
                     Tier(QWEN37_INPUT_LIMIT, 4_800_000, 960_000, 4_800_000)]))
      case Qwen3ASRFlashRealtime => Ok(UnitCard(TranscriptionCard, 120, 90_000_000))
      case QwenImage20 => Ok(UnitCard(ImageCard, 6, 35_000_000_000))
      case QwenAudio30TTSFlash => Ok(UnitCard(SpeechCard, 4_000, 14_000_000))
      case Wan27T2V => Ok(UnitCard(TextVideoCard, 15, 83_000_000_000))
      case Wan27I2V => Ok(UnitCard(ImageVideoCard, 15, 105_000_000_000))
      case QwenTTSClone => Ok(UnitCard(VoiceCard, 2, 200_000_000_000))
      case OtherModel(_) => Err(UnknownRateCard)
  }

  predicate UsableTier(card: RateCard, t: Tier) {
    && 0 < t.upperBound <= card.inputLimit
    && t.input > 0 && t.output >= 0 && t.cacheHit >= 0
    && !(card.outputLimit > 0 && t.output == 0)
  }

  function ScanTiers(card: RateCard, tiers: seq<Tier>, tokens: Int64): Option<Tier> {
    if |tiers| == 0 || !UsableTier(card, tiers[0]) then None
    else if tokens <= tiers[0].upperBound then Some(tiers[0])
    else ScanTiers(card, tiers[1..], tokens)
  }

  /** The one request-wide tariff the input-token count selects. */
  function TierForInput(card: RateCard, tokens: Int64): Option<Tier> {
    if tokens < 0 || tokens > card.inputLimit || |card.tiers| == 0 then None
    else ScanTiers(card, card.tiers, tokens)
  }

  /** No price falls from one tier to the next, and a cache hit never costs more than a miss. */
  predicate NoDearerThan(a: Tier, b: Tier) {
    a.input <= b.input && a.output <= b.output && a.cacheHit <= b.cacheHit
  }

  predicate Monotone(tiers: seq<Tier>) {
    && (forall i :: 0 <= i < |tiers| ==> tiers[i].cacheHit <= tiers[i].input)
    && (forall i, j :: 0 <= i < j < |tiers| ==> NoDearerThan(tiers[i], tiers[j]))
  }

  lemma {:induction false} ScanMonotone(card: RateCard, tiers: seq<Tier>, few: Int64, many: Int64)
    requires Monotone(tiers) && few <= many
    requires ScanTiers(card, tiers, many).Some?
    ensures ScanTiers(card, tiers, few).Some?
    ensures NoDearerThan(ScanTiers(card, tiers, few).value, ScanTiers(card, tiers, many).value)
    ensures ScanTiers(card, tiers, few).value in tiers && ScanTiers(card, tiers, many).value in tiers
  {
    if many > tiers[0].upperBound {
      ScanMonotone(card, tiers[1..], few, many);
      if few <= tiers[0].upperBound {
        var t := ScanTiers(card, tiers[1..], many).value;
        var i :| 0 <= i < |tiers[1..]| && tiers[1..][i] == t;
        assert NoDearerThan(tiers[0], tiers[i + 1]);
      }
    }
  }

  /** Every published card keeps the shape the bounds below rest on, and its limit is priced. */
  lemma CardsAreMonotone(provider: Provider, model: Model)
    requires Lookup(provider, model).Ok?
    ensures var card := Lookup(provider, model).value;
            Monotone(card.tiers) && TierForInput(card, card.inputLimit).Some?
  {
    var card := Lookup(provider, model).value;
    if model == Qwen37Plus {
      assert ScanTiers(card, card.tiers[1..], card.inputLimit) == Some(card.tiers[1]);
    }
  }

  // ---------------------------------------------------------------- plans

  datatype Plan = Plan(provider: Provider, model: Model, rateCardId: CardId, inputClass: InputClass,
                       promptQuote: Int64, outputQuote: Int64, reservedPUSD: Int64,
                       card: RateCard, tier: Tier)

  predicate UnitModel(unit: InputClass, model: Model) {
    match unit
    case InputStandard => false
    case InputAudioSeconds => model == Qwen3ASRFlashRealtime
    case InputImages => model == QwenImage20
    case InputCharacters => model == QwenAudio30TTSFlash
    case InputVideoSeconds => model == Wan27T2V || model == Wan27I2V
    case InputVoices => model == QwenTTSClone
  }

  function MinUnits(unit: InputClass): Int64 { if unit == InputAudioSeconds then 0 else 1 }

  /** Prices a conservative input/output bound and freezes card, tier and amount. */
  function NewPlan(provider: Provider, model: Model, unit: InputClass,
                   promptBound: Int64, outputBound: Int64): Result<Plan>
  {
    var found := Lookup(provider, model);
    if found.Err? then Err(found.error) else
      var card := found.value;
      if unit == InputStandard && card.outputLimit == 0 then Err(UnknownRateCard)
      else if unit != InputStandard &&
              (provider != ProviderQwen || !UnitModel(unit, model) ||
               outputBound != 0 || promptBound < MinUnits(unit)) then Err(UnknownRateCard)
      else if promptBound < 0 || outputBound < 0 ||
              promptBound > card.inputLimit || outputBound > card.outputLimit then Err(UnknownRateCard)
      else
        var tier := TierForInput(card, promptBound);
        if tier.None? then Err(UnknownRateCard) else
          var inCost := CheckedMul(promptBound, tier.value.input);
          if inCost.None? then Err(CostOverflow) else
            var outCost := CheckedMul(outputBound, tier.value.output);
            if outCost.None? then Err(CostOverflow) else
              var total := CheckedAdd(inCost.value, outCost.value);
              if total.None? then Err(CostOverflow) else
                Ok(Plan(provider, model, card.id, unit, promptBound, outputBound, total.value, card, tier.value))
  }

  /** The plan was produced by NewPlan from the bounds it carries. */
  predicate Built(p: Plan) {
    NewPlan(p.provider, p.model, p.inputClass, p.promptQuote, p.outputQuote) == Ok(p)
  }

  /** A built plan's amount is exactly its bounds at the frozen tier; its card and tier are the published ones. */
  lemma BuiltMeaning(p: Plan)
    requires Built(p)
    ensures Lookup(p.provider, p.model) == Ok(p.card) && Monotone(p.card.tiers)
    ensures TierForInput(p.card, p.promptQuote) == Some(p.tier) && UsableTier(p.card, p.tier)
    ensures 0 <= p.promptQuote <= p.card.inputLimit && 0 <= p.outputQuote <= p.card.outputLimit
    ensures p.reservedPUSD == p.promptQuote * p.tier.input + p.outputQuote * p.tier.output
    ensures TierForInput(p.card, p.card.inputLimit).Some?
  {
    CardsAreMonotone(p.provider, p.model);
    ScanUsable(p.card, p.card.tiers, p.promptQuote);
  }

  lemma {:induction false} ScanUsable(card: RateCard, tiers: seq<Tier>, tokens: Int64)
    requires ScanTiers(card, tiers, tokens).Some?
    ensures UsableTier(card, ScanTiers(card, tiers, tokens).value)
  {
    if tokens > tiers[0].upperBound { ScanUsable(card, tiers[1..], tokens); }
  }

  /** The field comparison a persistence boundary makes; it does not look at the private card. */
  predicate SamePlan(a: Plan, b: Plan) {
    && a.provider == b.provider && a.model == b.model && a.rateCardId == b.rateCardId
    && a.inputClass == b.inputClass && a.promptQuote == b.promptQuote && a.outputQuote == b.outputQuote
    && a.reservedPUSD == b.reservedPUSD && a.tier == b.tier
  }

  predicate Validate(p: Plan) {
    var want := NewPlan(p.provider, p.model, p.inputClass, p.promptQuote, p.outputQuote);
    want.Ok? && SamePlan(p, want.value)
  }

  /** The whole range a card admits is priced without overflow. */
  lemma CardFits(provider: Provider, model: Model, prompt: Int64, output: Int64)
    requires Lookup(provider, model).Ok?
    requires 0 <= prompt <= Lookup(provider, model).value.inputLimit
    requires 0 <= output <= Lookup(provider, model).value.outputLimit
    ensures var card := Lookup(provider, model).value;
            && TierForInput(card, prompt).Some?
            && var t := TierForInput(card, prompt).value;
               0 <= prompt * t.input && 0 <= output * t.output && prompt * t.input + output * t.output <= MAX_INT64
  {
    var card := Lookup(provider, model).value;
    CardsAreMonotone(provider, model);
    ScanMonotone(card, card.tiers, prompt, card.inputLimit);
    var t, top := TierForInput(card, prompt).value, TierForInput(card, card.inputLimit).value;
    ScanUsable(card, card.tiers, prompt);
    if model == Qwen37Plus { assert card.tiers[1..][0] == card.tiers[1] && top == card.tiers[1]; }
    MulMono(prompt, card.inputLimit, t.input, top.input);
    MulMono(output, card.outputLimit, t.output, top.output);
    MulNonNegative(prompt, t.input);
    MulNonNegative(output, t.output);
    assert card.inputLimit * top.input + card.outputLimit * top.output <= MAX_INT64;
  }

  /** The quantity is one the card serves: in its own unit, and within its limits. */
  predicate Quotable(card: RateCard, model: Model, unit: InputClass, prompt: int, output: int) {
    && 0 <= prompt <= card.inputLimit && 0 <= output <= card.outputLimit
    && if unit == InputStandard then card.outputLimit > 0
       else UnitModel(unit, model) && output == 0 && prompt >= MinUnits(unit)
  }

  lemma PlanRefusedOutside(provider: Provider, model: Model, unit: InputClass, prompt: Int64, output: Int64)
    requires Lookup(provider, model).Ok? && !Quotable(Lookup(provider, model).value, model, unit, prompt, output)
    ensures NewPlan(provider, model, unit, prompt, output) == Err(UnknownRateCard)
  {
  }

  lemma PlanBuiltInside(provider: Provider, model: Model, unit: InputClass, prompt: Int64, output: Int64)
    requires Lookup(provider, model).Ok? && Quotable(Lookup(provider, model).value, model, unit, prompt, output)
    ensures NewPlan(provider, model, unit, prompt, output).Ok?
  {
    CardFits(provider, model, prompt, output);
    var t := TierForInput(Lookup(provider, model).value, prompt).value;
    ScanUsable(Lookup(provider, model).value, Lookup(provider, model).value.tiers, prompt);
    assert CheckedMul(prompt, t.input).Some? && CheckedMul(output, t.output).Some?;
    assert CheckedAdd(prompt * t.input, output * t.output).Some?;
  }

  /** A plan exists exactly for quantities a published card serves; pricing one never overflows. */
  lemma PlansExistWithinCards(provider: Provider, model: Model, unit: InputClass, prompt: Int64, output: Int64)
    ensures NewPlan(provider, model, unit, prompt, output).Ok? <==>
            Lookup(provider, model).Ok? && Quotable(Lookup(provider, model).value, model, unit, prompt, output)
    ensures NewPlan(provider, model, unit, prompt, output) != Err(CostOverflow)
  {
    if Lookup(provider, model).Ok? {
      if Quotable(Lookup(provider, model).value, model, unit, prompt, output) {
        PlanBuiltInside(provider, model, unit, prompt, output);
      } else {
        PlanRefusedOutside(provider, model, unit, prompt, output);
      }
    }
  }

  /** A plan passes a persistence boundary exactly when, under the published card, it is one NewPlan builds. */
  lemma ValidateMeansBuilt(p: Plan)
    ensures Validate(p) <==> Lookup(p.provider, p.model).Ok? && Built(p.(card := Lookup(p.provider, p.model).value))
  {
    var want := NewPlan(p.provider, p.model, p.inputClass, p.promptQuote, p.outputQuote);
    if want.Ok? {
      var card := Lookup(p.provider, p.model).value;
      assert want.value.card == card;
      assert SamePlan(p, want.value) <==> p.(card := card) == want.value;
    }
  }

  // ---------------------------------------------------------------- usage

  datatype Usage = Usage(present: bool, malformed: bool, prompt: Int64, completion: Int64,
                         total: Int64, cached: Int64, reasoning: Int64)

  const NoUsage := Usage(false, false, 0, 0, 0, 0, 0)
  const MalformedUsage := Usage(false, true, 0, 0, 0, 0, 0)

  predicate HasNegative(u: Usage) {
    u.prompt < 0 || u.completion < 0 || u.total < 0 || u.cached < 0 || u.reasoning < 0
  }

  /** Keeps the greatest cumulative value seen for each field; a malformed frame is never forgotten. */
  function MergeSnapshot(u: Usage, v: Usage): Usage {
    Usage(u.present || v.present,
          u.malformed || v.malformed || HasNegative(v),
          Max(u.prompt, Clip(v.prompt)), Max(u.completion, Clip(v.completion)),
          Max(u.total, Clip(v.total)), Max(u.cached, Clip(v.cached)),
          Max(u.reasoning, Clip(v.reasoning)))
  }

  /** The usage a stream has accumulated after these frames, in this order. */
  function Accumulate(frames: seq<Usage>): Usage {
    if |frames| == 0 then NoUsage
    else MergeSnapshot(Accumulate(frames[..|frames| - 1]), frames[|frames| - 1])
  }

  datatype Field = Prompt | Completion | Total | Cached | Reasoning

  function Get(u: Usage, field: Field): Int64 {
    match field
    case Prompt => u.prompt
    case Completion => u.completion
    case Total => u.total
    case Cached => u.cached
    case Reasoning => u.reasoning
  }

  /** m is the greatest clipped value the frames show for one field (0 when there is none). */
  ghost predicate Greatest(frames: seq<Usage>, field: Field, m: Int64) {
    && m >= 0
    && (forall f :: f in frames ==> Get(f, field) <= m)
    && (m == 0 || exists f :: f in frames && Get(f, field) == m)
  }

  ghost predicate Flags(frames: seq<Usage>, u: Usage) {
    && (u.present <==> exists f :: f in frames && f.present)
    && (u.malformed <==> exists f :: f in frames && (f.malformed || HasNegative(f)))
  }

  ghost predicate Joins(frames: seq<Usage>, u: Usage) {
    Flags(frames, u) && forall field :: Greatest(frames, field, Get(u, field))
  }

  lemma GreatestExtends(frames: seq<Usage>, last: Usage, field: Field, m: Int64)
    requires Greatest(frames, field, m)
    ensures Greatest(frames + [last], field, Max(m, Clip(Get(last, field))))
  {
    var all := frames + [last];
    var n := Max(m, Clip(Get(last, field)));
    assert last == all[|frames|];
    forall f | f in all ensures Get(f, field) <= n {
      assert f in frames || f == last;
    }
    if n != 0 {
      if n == m {
        var f :| f in frames && Get(f, field) == m;
        assert f in all;
      } else {
        assert last in all && Get(last, field) == n;
      }
    }
  }

  lemma FlagsExtend(frames: seq<Usage>, last: Usage, u: Usage)
    requires Flags(frames, u)
    ensures Flags(frames + [last], MergeSnapshot(u, last))
  {
    assert forall f :: f in frames + [last] <==> f in frames || f == last;
  }

  lemma MergeJoins(frames: seq<Usage>, last: Usage, u: Usage)
    requires Joins(frames, u)
    ensures Joins(frames + [last], MergeSnapshot(u, last))
  {
    FlagsExtend(frames, last, u);
    var merged := MergeSnapshot(u, last);
    forall field ensures Greatest(frames + [last], field, Get(merged, field)) {
      GreatestExtends(frames, last, field, Get(u, field));
      assert Get(merged, field) == Max(Get(u, field), Clip(Get(last, field)));
    }
  }

  /** Folding any list of frames gives the field-wise maximum; one bad frame marks the whole. */
  lemma {:induction false} AccumulateJoins(frames: seq<Usage>)
    ensures Joins(frames, Accumulate(frames))
  {
    if |frames| == 0 {
      assert forall field :: Get(NoUsage, field) == 0;
    } else {
      var init := frames[..|frames| - 1];
      AccumulateJoins(init);
      MergeJoins(init, frames[|frames| - 1], Accumulate(init));
      assert frames == init + [frames[|frames| - 1]];
    }
  }

  /** Neither the order of the frames nor their repetition changes what is charged. */
  lemma AccumulateIgnoresOrderAndRepetition(a: seq<Usage>, b: seq<Usage>)
    requires forall f :: f in a <==> f in b
    ensures Accumulate(a) == Accumulate(b)
  {
    AccumulateJoins(a);
    AccumulateJoins(b);
    forall field ensures Get(Accumulate(a), field) == Get(Accumulate(b), field) {
      assert Greatest(a, field, Get(Accumulate(a), field)) && Greatest(b, field, Get(Accumulate(b), field));
    }
    var u, v := Accumulate(a), Accumulate(b);
    assert Get(u, Prompt) == Get(v, Prompt) && Get(u, Completion) == Get(v, Completion);
    assert Get(u, Total) == Get(v, Total) && Get(u, Cached) == Get(v, Cached) && Get(u, Reasoning) == Get(v, Reasoning);
  }

  // ---------------------------------------------------------------- cost

  datatype CostResult = Priced(cost: Int64) | Unpriceable | Failed(error: Error)

  /** Converts a cumulative usage snapshot under the frozen card. */
  function Cost(p: Plan, u: Usage): CostResult {
    if p.inputClass != InputStandard then Failed(UnknownRateCard)
    else if !u.present || u.malformed || HasNegative(u) || u.prompt <= 0 then Unpriceable
    else if u.total <= 0 then Unpriceable
    else
      var visible := CheckedAdd(u.prompt, u.completion);
      if visible.None? || u.total < visible.value then Unpriceable
      else if u.cached > u.prompt then Unpriceable
      else
        var derived := u.total - u.prompt;
        if u.reasoning > derived then Unpriceable else
          var output := if derived > u.completion then derived else u.completion;
          var tier := TierForInput(p.card, u.prompt);
          if tier.None? then Unpriceable else
            var hit := CheckedMul(u.cached, tier.value.cacheHit);
            if hit.None? then Failed(CostOverflow) else
              var miss := CheckedMul(u.prompt - u.cached, tier.value.input);
              if miss.None? then Failed(CostOverflow) else
                var input := CheckedAdd(hit.value, miss.value);
                if input.None? then Failed(CostOverflow) else
                  var out := CheckedMul(output, tier.value.output);
                  if out.None? then Failed(CostOverflow) else
                    var cost := CheckedAdd(input.value, out.value);
                    if cost.None? then Failed(CostOverflow) else Priced(cost.value)
  }

  /** The report is present, untainted and self-consistent. */
  predicate Authoritative(u: Usage) {
    && u.present && !u.malformed && !HasNegative(u)
    && 0 < u.prompt && u.cached <= u.prompt
    && u.prompt + u.completion <= u.total
    && u.reasoning <= u.total - u.prompt
  }

  /** The bill for a usage at a tier: hits, misses, and every token that is not prompt as output. */
  function Bill(t: Tier, u: Usage): int {
    u.cached * t.cacheHit + (u.prompt - u.cached) * t.input + (u.total - u.prompt) * t.output
  }

  lemma MulNonNegative(a: int, b: int)
    requires a >= 0 && b >= 0
    ensures a * b >= 0
  {
  }

  /**
   A usage is priced exactly when it is authoritative, within the card and its bill fits in an
   int64; the price is that bill, in which the output charged is always total minus prompt.
   */
  lemma CostMeaning(p: Plan, u: Usage)
    requires Built(p) && p.inputClass == InputStandard
    ensures var tier := TierForInput(p.card, u.prompt);
            && (Cost(p, u).Priced? <==> Authoritative(u) && tier.Some? && Bill(tier.value, u) <= MAX_INT64)
            && (Cost(p, u).Priced? ==> Cost(p, u).cost == Bill(tier.value, u) > 0)
    ensures TierForInput(p.card, u.prompt).Some? <==> 0 <= u.prompt <= p.card.inputLimit
  {
    OnlyAuthoritativeIsPriced(p, u);
    if 0 <= u.prompt <= p.card.inputLimit {
      StandardTier(p, u.prompt);
      if Authoritative(u) {
        AuthoritativeCost(p, u, TierForInput(p.card, u.prompt).value);
      }
    }
  }

  lemma OnlyAuthoritativeIsPriced(p: Plan, u: Usage)
    ensures Cost(p, u).Priced? ==> Authoritative(u) && TierForInput(p.card, u.prompt).Some?
  {
  }

  lemma AuthoritativeCost(p: Plan, u: Usage, t: Tier)
    requires p.inputClass == InputStandard && Authoritative(u)
    requires TierForInput(p.card, u.prompt) == Some(t) && t.input > 0 && t.cacheHit > 0 && t.output >= 0
    ensures Bill(t, u) > 0
    ensures Cost(p, u) == if Bill(t, u) <= MAX_INT64 then Priced(Bill(t, u)) else Failed(CostOverflow)
  {
    BillParts(t, u);
  }

  /** Every prompt a token card admits has a tier, and no price in it is zero. */
  lemma StandardTier(p: Plan, prompt: Int64)
    requires Built(p) && p.inputClass == InputStandard && 0 <= prompt <= p.card.inputLimit
    ensures TierForInput(p.card, prompt).Some?
    ensures var t := TierForInput(p.card, prompt).value; t.input > 0 && t.cacheHit > 0 && t.output > 0
  {
    BuiltMeaning(p);
    ScanMonotone(p.card, p.card.tiers, prompt, p.card.inputLimit);
    assert p.model == Qwen37Plus;
  }

  lemma BillParts(t: Tier, u: Usage)
    requires Authoritative(u) && t.input > 0 && t.cacheHit > 0 && t.output >= 0
    ensures u.cached * t.cacheHit >= 0
    ensures (u.prompt - u.cached) * t.input >= 0
    ensures (u.total - u.prompt) * t.output >= 0
    ensures Bill(t, u) > 0
  {
    MulNonNegative(u.cached, t.cacheHit);
    MulNonNegative(u.prompt - u.cached, t.input);
    MulNonNegative(u.total - u.prompt, t.output);
    if u.cached == 0 {
      MulMono(1, u.prompt, 1, t.input);
    } else {
      MulMono(1, u.cached, 1, t.cacheHit);
    }
  }

  /**
   The quote bounds every cost it is asked to cover: a usage inside the quoted prompt and output
   bounds is never priced above the reservation, whatever tier it lands in and however much of it
   was a cache hit, and pricing it never overflows.
   */
  lemma QuoteBoundsCost(p: Plan, u: Usage)
    requires Built(p) && p.inputClass == InputStandard
    requires u.prompt <= p.promptQuote && u.total - u.prompt <= p.outputQuote
    ensures Cost(p, u).Priced? <==> Authoritative(u)
    ensures Cost(p, u).Priced? ==> Cost(p, u).cost <= p.reservedPUSD
    ensures !Cost(p, u).Failed?
  {
    BuiltMeaning(p);
    CostMeaning(p, u);
    if Authoritative(u) {
      ScanMonotone(p.card, p.card.tiers, u.prompt, p.promptQuote);
      var t := TierForInput(p.card, u.prompt).value;
      var i :| 0 <= i < |p.card.tiers| && p.card.tiers[i] == t;
      BillAtMost(t, p.tier, u, p.promptQuote, p.outputQuote);
    }
  }

  lemma BillAtMost(t: Tier, q: Tier, u: Usage, promptQuote: int, outputQuote: int)
    requires Authoritative(u) && NoDearerThan(t, q) && t.cacheHit <= t.input && 0 <= t.input && 0 <= t.output
    requires u.prompt <= promptQuote && u.total - u.prompt <= outputQuote
    ensures Bill(t, u) <= promptQuote * q.input + outputQuote * q.output
  {
    MulMono(u.cached, u.cached, t.cacheHit, t.input);
    assert u.cached * t.input + (u.prompt - u.cached) * t.input == u.prompt * t.input;
    MulMono(u.prompt, promptQuote, t.input, q.input);
    MulMono(u.total - u.prompt, outputQuote, t.output, q.output);
  }

  lemma MulMono(a: int, b: int, x: int, y: int)
    requires 0 <= a <= b && x <= y && 0 <= y
    ensures a * x <= b * y
  {
    assert a * x <= a * y;
    assert a * y <= b * y;
  }

  /** The chat quote, and a usage past the tier boundary with cache hits, in pico-dollars. */
  lemma ChatExample()
    ensures var plan := NewPlan(ProviderQwen, Qwen37Plus, InputStandard, QWEN37_INPUT_LIMIT, QWEN37_OUTPUT_LIMIT);
            && plan.Ok? && Built(plan.value) && plan.value.reservedPUSD == 5_114_572_800_000
            && Cost(plan.value, Usage(true, false, 300_000, 4_000, 310_000, 100_000, 6_000))
               == Priced(1_104_000_000_000)
            && Cost(plan.value, Usage(true, false, 256_000, 0, 256_000, 256_000, 0)) == Priced(81_920_000_000)
  {
    PlanBuiltInside(ProviderQwen, Qwen37Plus, InputStandard, QWEN37_INPUT_LIMIT, QWEN37_OUTPUT_LIMIT);
    var p := NewPlan(ProviderQwen, Qwen37Plus, InputStandard, QWEN37_INPUT_LIMIT, QWEN37_OUTPUT_LIMIT).value;
    assert p.card.tiers[1..][0] == p.card.tiers[1];
    assert TierForInput(p.card, 256_000) == Some(p.card.tiers[0]);
    assert TierForInput(p.card, 300_000) == Some(p.card.tiers[1]) == TierForInput(p.card, QWEN37_INPUT_LIMIT);
    BuiltMeaning(p);
    CostMeaning(p, Usage(true, false, 300_000, 4_000, 310_000, 100_000, 6_000));
    CostMeaning(p, Usage(true, false, 256_000, 0, 256_000, 256_000, 0));
  }

  /** Converts an authoritative unit count under a frozen unit plan; the caller names its unit. */
  function UnitCost(p: Plan, unit: InputClass, units: Int64): Result<Int64> {
    if unit == InputStandard || p.inputClass != unit then Err(UnknownRateCard)
    else if units < 0 || units > p.card.inputLimit then Err(UnknownRateCard)
    else
      var tier := TierForInput(p.card, units);
      if tier.None? then Err(UnknownRateCard) else
        var cost := CheckedMul(units, tier.value.input);
        if cost.None? then Err(CostOverflow) else Ok(cost.value)
  }

  /** Settling a unit plan for its quoted quantity costs exactly the reservation, and cost never falls with quantity. */
  lemma UnitCostMeetsReservation(p: Plan, few: Int64, many: Int64)
    requires Built(p) && p.inputClass != InputStandard
    requires 0 <= few <= many <= p.card.inputLimit
    ensures UnitCost(p, p.inputClass, p.promptQuote) == Ok(p.reservedPUSD)
    ensures UnitCost(p, p.inputClass, few).Ok? && UnitCost(p, p.inputClass, many).Ok?
    ensures UnitCost(p, p.inputClass, few).value == few * p.tier.input <= UnitCost(p, p.inputClass, many).value
    ensures forall unit | unit != p.inputClass :: UnitCost(p, unit, few).Err?
  {
    BuiltMeaning(p);
    UnitTier(p, p.promptQuote);
    UnitTier(p, few);
    UnitTier(p, many);
    MulMono(few, many, p.tier.input, p.tier.input);
    MulMono(many, p.card.inputLimit, p.tier.input, p.tier.input);
  }

  /** A unit card has one tier, and its whole limit is priced without overflow. */
  lemma UnitTier(p: Plan, units: Int64)
    requires Built(p) && p.inputClass != InputStandard && 0 <= units <= p.card.inputLimit
    ensures TierForInput(p.card, units) == Some(p.tier) && p.tier.input >= 0
    ensures p.card.inputLimit * p.tier.input <= MAX_INT64 && p.outputQuote == 0
  {
    var card := p.card;
    assert |card.tiers| == 1 && card.tiers[0].upperBound == card.inputLimit;
  }
}
