/**
 Hot configuration: batches of dashboard overrides are validated as a whole, persisted, and only
 then swapped in, so that a restart from the persisted overlay always rebuilds the live value.
 */
module HotConfig {
  import opened Billing
  import Ledger
  import opened Overlay

  /** The runtime-editable keys of the registry. */
  datatype HotKey =
    | GatewayMode | PublicModelId | GlobalMonthlySpend | MonthlyQuota | MaxTokensCap | InputTokenCap
    | MaxMessages | MaxMessageChars | MaxMediaParts | MaxMediaDecodedBytes | MaxBodyBytes | NGlobalConcurrency
    | RatePerMin | DailySublimit | ImageDailyLimit | VoiceDailyLimit | VoiceAccountCeiling | SpeechDailyLimit
    | VideoDailyLimit | InstallPerIPHour | InstallGlobalDailyCap | InstallPerFPDaily | InstallPerFPCooldownSec
    | InstallPowMode | InstallPowDifficulty | TokenAnomalyRPM | TokenThrottleFactor | TokenThrottleCooldownSec
    | QueueWaitMS | UpstreamHeaderTimeoutSec | DiskMinMB | DiskMinPercent

  /** A key as a batch names it: editable, startup-only, or not in the registry at all (secrets included). */
  datatype Key = Hot(key: HotKey) | StartupHard(name: string) | Unregistered(name: string)

  datatype Value = Num(n: int) | Text(s: string)

  /** Staging for uploads; the signing secret counts by its length. */
  datatype MediaEnv = MediaEnv(stagingRoot: string, secretBytes: nat, uploadMax: int, chunkMax: int,
                               uploadTtl: int, leaseTtl: int)

  datatype SpeechEnv = SpeechEnv(model: Model, defaultVoice: string)

  datatype VideoEnv = VideoEnv(fromText: Model, fromImage: Model, handleKeyBytes: nat)

  /** The environment's part, which no override reaches; a capability that is off is None. */
  datatype Env = Env(powSecretSet: bool, chatModel: Model, qwenKeys: nat, nativeBase: string, fetchDomain: string,
                     image: Option<Model>, speech: Option<SpeechEnv>, video: Option<VideoEnv>, media: Option<MediaEnv>)

  type Fields = map<Key, Value>

  function NumOf(f: Fields, k: HotKey): int { if Hot(k) in f && f[Hot(k)].Num? then f[Hot(k)].n else 0 }

  function TextOf(f: Fields, k: HotKey): string { if Hot(k) in f && f[Hot(k)].Text? then f[Hot(k)].s else "" }

  /** The complete input and output limits of the configured model, priced. */
  function WorstCaseQuote(model: Model): Option<Int64> {
    var plan := NewPlan(ProviderQwen, model, InputStandard, QWEN37_INPUT_LIMIT, QWEN37_OUTPUT_LIMIT);
    if plan.Ok? then Some(plan.value.reservedPUSD) else None
  }

  // ---------------------------------------------------------------- the registry

  const MAX_MONTHLY_QUOTA := 1_000_000_000
  const MAX_MONTHLY_SPEND_MICRO_USD := 9_000_000_000_000
  const PICO_PER_MICRO := 1_000_000
  const MAX_MEDIA_PARTS := 64
  const MAX_MEDIA_UPLOAD_BYTES := 1024 * 1024 * 1024
  const MAX_PUBLIC_MODEL_ID_BYTES := 128

  function Least(k: HotKey): int {
    match k
    case InputTokenCap => 0
    case RatePerMin => 0
    case DailySublimit => 0
    case ImageDailyLimit => 0
    case VoiceDailyLimit => 0
    case VoiceAccountCeiling => 0
    case SpeechDailyLimit => 0
    case VideoDailyLimit => 0
    case InstallPerIPHour => 0
    case InstallGlobalDailyCap => 0
    case InstallPerFPDaily => 0
    case InstallPerFPCooldownSec => 0
    case TokenAnomalyRPM => 0
    case QueueWaitMS => 0
    case DiskMinMB => 0
    case DiskMinPercent => 0
    case MaxBodyBytes => 4096
    case _ => 1
  }

  function Greatest(k: HotKey): int {
    match k
    case GlobalMonthlySpend => MAX_MONTHLY_SPEND_MICRO_USD
    case MonthlyQuota => MAX_MONTHLY_QUOTA
    case MaxTokensCap => 1_000_000
    case InputTokenCap => 10_000_000
    case MaxMessages => 100_000
    case MaxMessageChars => 16 * 1024 * 1024
    case MaxMediaParts => MAX_MEDIA_PARTS
    case MaxMediaDecodedBytes => 8 * 1024 * 1024
    case MaxBodyBytes => 8 * 1024 * 1024
    case NGlobalConcurrency => 100_000
    case RatePerMin => 10_000_000
    case DailySublimit => 1_000_000_000
    case ImageDailyLimit => 100_000
    case VoiceDailyLimit => 100
    case VoiceAccountCeiling => 1_000_000
    case SpeechDailyLimit => 100_000_000
    case VideoDailyLimit => 10_000
    case InstallPerIPHour => 1_000_000
    case InstallGlobalDailyCap => 100_000_000
    case InstallPerFPDaily => 1_000_000
    case InstallPerFPCooldownSec => 86_400
    case InstallPowDifficulty => 32
    case TokenAnomalyRPM => 10_000_000
    case TokenThrottleFactor => 1000
    case TokenThrottleCooldownSec => 86_400
    case QueueWaitMS => 60_000
    case UpstreamHeaderTimeoutSec => 600
    case DiskMinMB => 1024 * 1024 * 1024
    case DiskMinPercent => 100
    case _ => 0
  }

  /** The wallet is edited in micro-dollars and kept in pico-dollars. */
  function Scale(k: HotKey): int { if k == GlobalMonthlySpend then PICO_PER_MICRO else 1 }

  predicate IsSpace(ch: char) {
    ch == ' ' || ('\t' <= ch <= '\r') || ch == '\U{0085}' || ch == '\U{00A0}' || ch == '\U{1680}' ||
    ('\U{2000}' <= ch <= '\U{200A}') || ch == '\U{2028}' || ch == '\U{2029}' || ch == '\U{202F}' ||
    ch == '\U{205F}' || ch == '\U{3000}'
  }

  function TrimLeft(s: string): string { if |s| > 0 && IsSpace(s[0]) then TrimLeft(s[1..]) else s }

  function TrimRight(s: string): string {
    if |s| > 0 && IsSpace(s[|s| - 1]) then TrimRight(s[..|s| - 1]) else s
  }

  function Trim(s: string): string { TrimRight(TrimLeft(s)) }

  function Digits(s: string): Option<int> {
    if |s| == 0 then Some(0)
    else
      var rest, ch := Digits(s[..|s| - 1]), s[|s| - 1];
      if rest.None? || !('0' <= ch <= '9') then None else Some(rest.value * 10 + (ch as int - '0' as int))
  }

  /** A decimal int64 with an optional sign. */
  function ParseInt(s: string): Option<int> {
    var signed := |s| > 0 && (s[0] == '+' || s[0] == '-');
    var digits := if signed then s[1..] else s;
    if |digits| == 0 || Digits(digits).None? then None
    else
      var n := if signed && s[0] == '-' then -Digits(digits).value else Digits(digits).value;
      if -MAX_INT64 - 1 <= n <= MAX_INT64 then Some(n) else None
  }

  /** What one override sets its field to; it depends on the environment and its own text alone. */
  function Parse(env: Env, key: Key, raw: string): Option<Value> {
    if !key.Hot? then None else
      var s := Trim(raw);
      match key.key
      case GatewayMode => if s == "debug" || s == "production" then Some(Text(s)) else None
      case PublicModelId => if |s| == 0 then None else Some(Text(s))
      case InstallPowMode =>
        if s == "off" || ((s == "shadow" || s == "enforce") && env.powSecretSet) then Some(Text(s)) else None
      case k =>
        var n := ParseInt(s);
        if n.Some? && Least(k) <= n.value <= Greatest(k) then Some(Num(n.value * Scale(k))) else None
  }

  // ---------------------------------------------------------------- reading a value back

  predicate IsDigit(ch: char) { '0' <= ch <= '9' }

  function DigitChar(n: nat): (ch: char)
    requires n < 10
    ensures IsDigit(ch) && ch as int - '0' as int == n
  {
    '0' + n as char
  }

  /** The decimal rendering of the dashboard. */
  function Format(n: nat): (s: string)
    ensures |s| > 0 && forall i :: 0 <= i < |s| ==> IsDigit(s[i])
  {
    if n < 10 then [DigitChar(n)] else Format(n / 10) + [DigitChar(n % 10)]
  }

  lemma {:induction false} DigitsOfFormat(n: nat)
    ensures Digits(Format(n)) == Some(n)
  {
    if n < 10 {
      assert Format(n)[..0] == "";
    } else {
      DigitsOfFormat(n / 10);
      assert Format(n)[..|Format(n)| - 1] == Format(n / 10);
    }
  }

  predicate Numeric(k: HotKey) { k != GatewayMode && k != PublicModelId && k != InstallPowMode }

  lemma NothingToTrim(s: string)
    requires |s| > 0 && !IsSpace(s[0]) && !IsSpace(s[|s| - 1])
    ensures Trim(s) == s
  {
  }

  lemma FormatParsesBack(n: nat)
    requires n <= MAX_INT64
    ensures ParseInt(Format(n)) == Some(n)
  {
    DigitsOfFormat(n);
    assert IsDigit(Format(n)[0]);
  }

  lemma NumericParse(env: Env, k: HotKey, raw: string)
    requires Numeric(k)
    ensures var n := ParseInt(Trim(raw));
            Parse(env, Hot(k), raw) ==
              if n.Some? && Least(k) <= n.value <= Greatest(k) then Some(Num(n.value * Scale(k))) else None
  {
  }

  /** A number within the key's bounds, rendered, sets exactly that number. */
  lemma NumbersParseBack(env: Env, k: HotKey, shown: nat)
    requires Numeric(k) && Least(k) <= shown <= Greatest(k)
    ensures Parse(env, Hot(k), Format(shown)) == Some(Num(shown * Scale(k)))
  {
    NothingToTrim(Format(shown));
    FormatParsesBack(shown);
    NumericParse(env, k, Format(shown));
  }

  predicate ValidPublicModelId(id: string) {
    0 < |id| <= MAX_PUBLIC_MODEL_ID_BYTES &&
    forall i :: 0 <= i < |id| ==>
      'a' <= id[i] <= 'z' || 'A' <= id[i] <= 'Z' || '0' <= id[i] <= '9' || id[i] in "._-:/"
  }

  predicate Blank(s: string) { |Trim(s)| == 0 }

  /** One piece of the capability has an exact price. */
  predicate Priced(model: Model, unit: InputClass) { NewPlan(ProviderQwen, model, unit, 1, 0).Ok? }

  /** A bare host (a URL would hold a slash), and not one of the shape the provider's fetcher refuses. */
  predicate ValidFetchDomain(domain: string) {
    var d := Trim(domain);
    (forall i :: 0 <= i < |d| ==> d[i] !in "/?#") && !("api." <= d)
  }

  predicate ValidMedia(media: MediaEnv, maxBody: int) {
    && !Blank(media.stagingRoot) && media.secretBytes >= 32
    && 0 < media.uploadMax <= MAX_MEDIA_UPLOAD_BYTES
    && 0 < media.chunkMax <= maxBody && media.chunkMax <= media.uploadMax
    && media.uploadTtl > 0 && media.leaseTtl > 0
  }

  /** A generating capability that is on can reach the provider, and each of its models has a price. */
  predicate ValidCapabilities(env: Env) {
    && (env.image.Some? || env.speech.Some? || env.video.Some? ==> env.qwenKeys > 0 && !Blank(env.nativeBase))
    && (env.image.Some? ==> Priced(env.image.value, InputImages))
    && (env.speech.Some? ==> Priced(env.speech.value.model, InputCharacters) && !Blank(env.speech.value.defaultVoice))
    && (env.video.Some? ==>
          && Priced(env.video.value.fromText, InputVideoSeconds) && Priced(env.video.value.fromImage, InputVideoSeconds)
          && env.video.value.handleKeyBytes > 0)
  }

  predicate AffordsWorstCase(env: Env, wallet: int) {
    WorstCaseQuote(env.chatModel).Some? && WorstCaseQuote(env.chatModel).value <= wallet
  }

  /** The cross-field checks, over the environment and the editable fields together. */
  predicate ValidateSemantics(env: Env, f: Fields) {
    var pow, mode := TextOf(f, InstallPowMode), TextOf(f, GatewayMode);
    && NumOf(f, GlobalMonthlySpend) > 0
    && ValidPublicModelId(TextOf(f, PublicModelId))
    && AffordsWorstCase(env, NumOf(f, GlobalMonthlySpend))
    && 1 <= NumOf(f, MaxMediaParts) <= MAX_MEDIA_PARTS
    && 1 <= NumOf(f, MaxMediaDecodedBytes) <= NumOf(f, MaxBodyBytes)
    && ValidCapabilities(env) && ValidFetchDomain(env.fetchDomain)
    && (env.media.Some? ==> ValidMedia(env.media.value, NumOf(f, MaxBodyBytes)))
    && ((pow == "shadow" || pow == "enforce") ==> env.powSecretSet)
    && (mode == "" || mode == "debug" || mode == "production")
  }

  // ---------------------------------------------------------------- the rationing mask

  predicate Debug(f: Fields) { TextOf(f, GatewayMode) == "debug" }

  /** What debug opens each rationing knob to; every other key is left alone. */
  function OpenedTo(k: HotKey): Option<Value> {
    match k
    case MonthlyQuota => Some(Num(MAX_MONTHLY_QUOTA))
    case GlobalMonthlySpend => Some(Num(MAX_MONTHLY_SPEND_MICRO_USD * PICO_PER_MICRO))
    case RatePerMin => Some(Num(0))
    case DailySublimit => Some(Num(0))
    case TokenAnomalyRPM => Some(Num(0))
    case ImageDailyLimit => Some(Num(0))
    case SpeechDailyLimit => Some(Num(0))
    case VideoDailyLimit => Some(Num(0))
    case VoiceDailyLimit => Some(Num(0))
    case InstallPerIPHour => Some(Num(0))
    case InstallGlobalDailyCap => Some(Num(0))
    case InstallPerFPDaily => Some(Num(0))
    case InstallPerFPCooldownSec => Some(Num(0))
    case InstallPowMode => Some(Text("off"))
    case _ => None
  }

  const RationKeys: set<Key> := set h: HotKey | OpenedTo(h).Some? :: Hot(h)

  predicate Rationed(k: Key) { k.Hot? && OpenedTo(k.key).Some? }

  lemma RationKeysAreRationed(k: Key)
    ensures k in RationKeys <==> Rationed(k)
  {
    if Rationed(k) { assert Hot(k.key) in RationKeys; }
  }

  /** The enforced fields: the configured ones in production, with every rationing knob open in debug. */
  function EffectiveLimits(f: Fields): Fields {
    if !Debug(f) then f
    else map k | k in f.Keys + RationKeys :: if k in RationKeys && Rationed(k) then OpenedTo(k.key).value else f[k]
  }

  /** The gateway's registry under its environment. */
  function Gateway(env: Env): Registry<Key, Value> {
    Registry((k, raw) => Parse(env, k, raw), f => ValidateSemantics(env, f), f => EffectiveLimits(f))
  }

  /** An accepted batch names editable keys only, leaves every other field alone, and passes every check. */
  lemma AcceptedBatch(env: Env, f: Fields, batch: map<Key, string>, k: Key)
    requires Overlaid(Gateway(env), f, batch).Some?
    ensures var next := Overlaid(Gateway(env), f, batch).value;
            && ValidateSemantics(env, next)
            && (k in batch ==> k.Hot? && Parse(env, k, batch[k]).Some? && next[k] == Parse(env, k, batch[k]).value)
            && (k in f && k !in batch ==> k in next && next[k] == f[k])
  {
    assert k in batch ==> Gateway(env).parse(k, batch[k]).Some?;
  }

  /** The gateway's configuration survives any history of edits, failures, crashes and restarts. */
  lemma GatewayRestartsEquivalently(env: Env, base: Fields, events: seq<Event<Key>>)
    ensures var s := After(Gateway(env), base, events);
            s.live.Some? ==> Boot(Gateway(env), base, s.rows) == s.live
  {
    RestartsRebuildTheLiveValue(Gateway(env), base, events);
  }

  // ---------------------------------------------------------------- the editor

  function FormatInt(n: int): string { if n < 0 then "-" + Format(-n) else Format(n) }

  /** Division as the source's integers do it, towards zero. */
  function Quotient(n: int, d: int): int
    requires d > 0
  {
    if n < 0 then -(-n / d) else n / d
  }

  /** What the dashboard shows for a field of the configured value. */
  function Shown(f: Fields, k: HotKey): string {
    if Numeric(k) then FormatInt(Quotient(NumOf(f, k), Scale(k))) else TextOf(f, k)
  }

  /** The field holds a value of its own key: environment loading, and every accepted batch, see to that. */
  predicate InRegistry(env: Env, f: Fields, k: HotKey) {
    Hot(k) in f && if Numeric(k) then f[Hot(k)].Num? && OfKey(k, f[Hot(k)].n) else TextOfKey(env, k, f[Hot(k)])
  }

  predicate TextOfKey(env: Env, k: HotKey, v: Value) {
    v.Text? &&
    match k
    case GatewayMode => v.s == "debug" || v.s == "production"
    case PublicModelId => ValidPublicModelId(v.s)
    case _ => v.s == "off" || (env.powSecretSet && (v.s == "shadow" || v.s == "enforce"))
  }

  predicate OfKey(k: HotKey, n: int) { n % Scale(k) == 0 && Least(k) <= n / Scale(k) <= Greatest(k) }

  ghost predicate AllInRegistry(env: Env, f: Fields) { forall k :: InRegistry(env, f, k) }

  lemma TextParsesBack(env: Env, f: Fields, k: HotKey)
    requires InRegistry(env, f, k) && !Numeric(k)
    ensures Parse(env, Hot(k), Shown(f, k)) == Some(f[Hot(k)])
  {
    NothingToTrim(TextOf(f, k));
  }

  lemma NumberShown(env: Env, f: Fields, k: HotKey)
    requires InRegistry(env, f, k) && Numeric(k)
    ensures var n := NumOf(f, k) / Scale(k);
            n >= 0 && Least(k) <= n <= Greatest(k) && Shown(f, k) == Format(n) && f[Hot(k)] == Num(n * Scale(k))
  {
    NonNegativeBounds(k);
  }

  lemma NonNegativeBounds(k: HotKey)
    ensures 0 <= Least(k) && 0 < Scale(k)
  {
  }

  /** What the dashboard shows for any field, written back, sets the field to the very same value. */
  lemma DumpedValuesParseBack(env: Env, f: Fields, k: HotKey)
    requires InRegistry(env, f, k)
    ensures Parse(env, Hot(k), Shown(f, k)) == Some(f[Hot(k)])
  {
    if Numeric(k) {
      NumberShown(env, f, k);
      NumbersParseBack(env, k, NumOf(f, k) / Scale(k));
    } else {
      TextParsesBack(env, f, k);
    }
  }

  /** The batch that writes back these fields of the editor as they are shown. */
  function Saved(f: Fields, keys: set<HotKey>): map<Key, string> { map k | k in keys :: Hot(k) := Shown(f, k) }

  /** Writing back any part of the editor unchanged is accepted and changes nothing. */
  lemma SavingChangesNothing(env: Env, f: Fields, keys: set<HotKey>)
    requires AllInRegistry(env, f) && ValidateSemantics(env, f)
    ensures Overlaid(Gateway(env), f, Saved(f, keys)) == Some(f)
  {
    var reg, batch := Gateway(env), Saved(f, keys);
    forall k | k in batch ensures k in f && reg.parse(k, batch[k]) == Some(f[k]) {
      assert InRegistry(env, f, k.key);
      DumpedValuesParseBack(env, f, k.key);
    }
    WritingBackChangesNothing(reg, f, batch);
  }

  lemma ParsedIsInRegistry(env: Env, f: Fields, k: HotKey, raw: string)
    requires Hot(k) in f && Parse(env, Hot(k), raw) == Some(f[Hot(k)])
    requires k == PublicModelId ==> ValidPublicModelId(TextOf(f, k))
    ensures InRegistry(env, f, k)
  {
    if Numeric(k) {
      NumericParse(env, k, raw);
      Rescaled(k, ParseInt(Trim(raw)).value);
    }
  }

  lemma Rescaled(k: HotKey, n: int)
    ensures n * Scale(k) % Scale(k) == 0 && n * Scale(k) / Scale(k) == n
  {
  }

  /** An accepted batch leaves every field with a value of its own key. */
  lemma AcceptedStaysInRegistry(env: Env, f: Fields, batch: map<Key, string>, k: HotKey)
    requires InRegistry(env, f, k) && Overlaid(Gateway(env), f, batch).Some?
    ensures InRegistry(env, Overlaid(Gateway(env), f, batch).value, k)
  {
    AcceptedBatch(env, f, batch, Hot(k));
    if Hot(k) in batch {
      ParsedIsInRegistry(env, Overlaid(Gateway(env), f, batch).value, k, batch[Hot(k)]);
    }
  }

  /** Over any history from a validated environment, the live value passes every check, field by field too. */
  lemma LiveIsInRegistry(env: Env, base: Fields, events: seq<Event<Key>>)
    requires AllInRegistry(env, base) && ValidateSemantics(env, base)
    ensures var s := After(Gateway(env), base, events);
            s.live.Some? ==> AllInRegistry(env, s.live.value) && ValidateSemantics(env, s.live.value)
  {
    var s := After(Gateway(env), base, events);
    RestartsRebuildTheLiveValue(Gateway(env), base, events);
    if s.live.Some? && s.rows != map[] {
      AcceptedBatch(env, base, s.rows, Hot(GatewayMode));
      forall k ensures InRegistry(env, s.live.value, k) {
        assert InRegistry(env, base, k);
        AcceptedStaysInRegistry(env, base, s.rows, k);
      }
    }
  }

  /** So whatever edits, failures, crashes and restarts came before, saving the editor as shown is a no-op. */
  lemma SavingTheEditorChangesNothing(env: Env, base: Fields, events: seq<Event<Key>>, keys: set<HotKey>)
    requires AllInRegistry(env, base) && ValidateSemantics(env, base)
    ensures var s := After(Gateway(env), base, events);
            s.live.Some? ==> Overlaid(Gateway(env), s.live.value, Saved(s.live.value, keys)) == s.live
  {
    LiveIsInRegistry(env, base, events);
    var s := After(Gateway(env), base, events);
    if s.live.Some? { SavingChangesNothing(env, s.live.value, keys); }
  }

  // ---------------------------------------------------------------- what the mask changes

  /** Selecting production enforces the configured values again, the ones debug had masked included. */
  lemma ProductionRestoresLimits(env: Env, f: Fields, batch: map<Key, string>)
    requires Overlaid(Gateway(env), f, batch).Some?
    requires Hot(GatewayMode) in batch && Trim(batch[Hot(GatewayMode)]) == "production"
    ensures var next := Overlaid(Gateway(env), f, batch).value;
            EffectiveLimits(next) == next && forall k :: k in f && k !in batch ==> k in next && next[k] == f[k]
  {
    AcceptedBatch(env, f, batch, Hot(GatewayMode));
  }

  /** The mask touches rationing alone: every limit that protects the process stays as configured. */
  lemma MaskOnlyOpensRationing(f: Fields, k: Key)
    requires Debug(f)
    ensures var e := EffectiveLimits(f);
            && (k in e <==> k in f || Rationed(k))
            && (k in e ==> e[k] == if Rationed(k) then OpenedTo(k.key).value else f[k])
  {
    RationKeysAreRationed(k);
  }

  lemma MaskIsIdempotent(f: Fields)
    ensures EffectiveLimits(EffectiveLimits(f)) == EffectiveLimits(f)
  {
    if Debug(f) {
      var e := EffectiveLimits(f);
      assert Debug(e) by { MaskOnlyOpensRationing(f, Hot(GatewayMode)); }
      forall k ensures (k in EffectiveLimits(e) <==> k in e) && (k in e ==> EffectiveLimits(e)[k] == e[k]) {
        MaskOnlyOpensRationing(f, k);
        MaskOnlyOpensRationing(e, k);
      }
      assert EffectiveLimits(e) == e;
    }
  }

  function Fit(n: int): Int64 { if -MAX_INT64 - 1 <= n <= MAX_INT64 then n else 0 }

  function FitWallet(n: int): Ledger.WalletLimit { if 0 <= n <= MAX_INT64 then n else 0 }

  /** The wallet and caps the enforcement path reads. */
  function LimitsOf(f: Fields): Ledger.Limits {
    Ledger.Limits(Fit(NumOf(f, MonthlyQuota)), FitWallet(NumOf(f, GlobalMonthlySpend)), Fit(NumOf(f, DailySublimit)),
                  Fit(NumOf(f, ImageDailyLimit)), Fit(NumOf(f, SpeechDailyLimit)), Fit(NumOf(f, VideoDailyLimit)),
                  Fit(NumOf(f, VoiceDailyLimit)))
  }

  lemma MaskedNum(f: Fields, k: HotKey, n: int)
    requires Debug(f) && OpenedTo(k) == Some(Num(n))
    ensures NumOf(EffectiveLimits(f), k) == n
  {
    MaskOnlyOpensRationing(f, Hot(k));
  }

  lemma MaskedMoney(f: Fields)
    requires Debug(f)
    ensures NumOf(EffectiveLimits(f), MonthlyQuota) == MAX_MONTHLY_QUOTA
    ensures NumOf(EffectiveLimits(f), GlobalMonthlySpend) == MAX_MONTHLY_SPEND_MICRO_USD * PICO_PER_MICRO
  {
    MaskedNum(f, MonthlyQuota, MAX_MONTHLY_QUOTA);
    MaskedNum(f, GlobalMonthlySpend, MAX_MONTHLY_SPEND_MICRO_USD * PICO_PER_MICRO);
  }

  lemma MaskedGates(f: Fields, k: HotKey)
    requires Debug(f) && k in {DailySublimit, ImageDailyLimit, SpeechDailyLimit, VideoDailyLimit, VoiceDailyLimit}
    ensures NumOf(EffectiveLimits(f), k) == 0
  {
    MaskedNum(f, k, 0);
  }

  lemma MaskedLimits(f: Fields)
    requires Debug(f)
    ensures LimitsOf(EffectiveLimits(f))
         == Ledger.Limits(MAX_MONTHLY_QUOTA, MAX_MONTHLY_SPEND_MICRO_USD * PICO_PER_MICRO, 0, 0, 0, 0, 0)
  {
    MaskedMoney(f);
    MaskedGates(f, DailySublimit);
    MaskedGates(f, ImageDailyLimit);
    MaskedGates(f, SpeechDailyLimit);
    MaskedGates(f, VideoDailyLimit);
    MaskedGates(f, VoiceDailyLimit);
    OpenLimits(EffectiveLimits(f));
  }

  lemma OpenLimits(e: Fields)
    requires NumOf(e, MonthlyQuota) == MAX_MONTHLY_QUOTA
    requires NumOf(e, GlobalMonthlySpend) == MAX_MONTHLY_SPEND_MICRO_USD * PICO_PER_MICRO
    requires NumOf(e, DailySublimit) == NumOf(e, ImageDailyLimit) == NumOf(e, SpeechDailyLimit) == 0
    requires NumOf(e, VideoDailyLimit) == NumOf(e, VoiceDailyLimit) == 0
    ensures LimitsOf(e) == Ledger.Limits(MAX_MONTHLY_QUOTA, MAX_MONTHLY_SPEND_MICRO_USD * PICO_PER_MICRO, 0, 0, 0, 0, 0)
  {
  }

  /** Within the registry's ceilings, debug admits whatever the configured limits admit: it never denies more. */
  lemma DebugNeverDeniesMore(f: Fields, s: Ledger.State, row: Ledger.Row)
    requires NumOf(f, MonthlyQuota) <= MAX_MONTHLY_QUOTA
    requires NumOf(f, GlobalMonthlySpend) <= MAX_MONTHLY_SPEND_MICRO_USD * PICO_PER_MICRO
    requires Debug(f) && Ledger.Admits(s, row, LimitsOf(f))
    ensures Ledger.Admits(s, row.(sublimitApplied := false), LimitsOf(EffectiveLimits(f)))
  {
    MaskedLimits(f);
  }

  lemma AffordsAChat(env: Env, f: Fields)
    requires ValidateSemantics(env, f)
    requires NumOf(f, GlobalMonthlySpend) <= MAX_MONTHLY_SPEND_MICRO_USD * PICO_PER_MICRO
    ensures WorstCaseQuote(env.chatModel).Some?
    ensures WorstCaseQuote(env.chatModel).value <= LimitsOf(f).globalMonthlySpend
  {
  }

  /** The row is a chat's, within the worst-case quote, in a month and on a day that have none yet. */
  ghost predicate FirstChat(s: Ledger.State, row: Ledger.Row, quote: int) {
    && Ledger.RowChecks(row) && row.category == Ledger.NoCategory && row.reserved <= quote
    && Ledger.FreshId(s, row.id)
    && forall i :: 0 <= i < |s.ledger| ==>
         s.ledger[i].period.month != row.period.month && s.ledger[i].period.day != row.period.day
  }

  /**
   An accepted configuration never locks its own users out: in any state any run reaches, the first
   chat of a month and day is admitted however much it may cost, under the configured limits and
   under the masked ones.
   */
  lemma AcceptedConfigAdmitsAChat(env: Env, f: Fields, ops: seq<Ledger.Op>, states: seq<Ledger.State>, n: nat,
                                  row: Ledger.Row)
    requires ValidateSemantics(env, f) && 1 <= NumOf(f, MonthlyQuota) <= MAX_MONTHLY_QUOTA
    requires NumOf(f, GlobalMonthlySpend) <= MAX_MONTHLY_SPEND_MICRO_USD * PICO_PER_MICRO
    requires Ledger.IsRun(ops, states) && n <= |ops|
    requires FirstChat(states[n], row, WorstCaseQuote(env.chatModel).value)
    requires row.sublimitApplied ==> LimitsOf(f).dailySublimit > 0
    ensures Ledger.Admits(states[n], row, LimitsOf(f))
    ensures Debug(f) ==> Ledger.Admits(states[n], row.(sublimitApplied := false), LimitsOf(EffectiveLimits(f)))
  {
    Ledger.EveryRunConserves(ops, states, n);
    AffordsAChat(env, f);
    NothingCountedYet(states[n], row, WorstCaseQuote(env.chatModel).value);
    if Debug(f) { DebugNeverDeniesMore(f, states[n], row); }
  }

  lemma NothingCountedYet(s: Ledger.State, row: Ledger.Row, quote: int)
    requires Ledger.Conserved(s) && FirstChat(s, row, quote)
    ensures forall key, col :: Ledger.Touches(row, key) && !key.CategoryDaily? ==> Ledger.Balance(s, key, col) == 0
  {
    forall key, col | Ledger.Touches(row, key) && !key.CategoryDaily? ensures Ledger.Balance(s, key, col) == 0 {
      Ledger.TallyUntouched(s.ledger, Ledger.Start(s, key), key, col);
    }
  }

  /** The capability is on, with this model, in this unit. */
  predicate Offers(env: Env, model: Model, unit: InputClass) {
    || (unit == InputImages && env.image == Some(model))
    || (unit == InputCharacters && env.speech.Some? && env.speech.value.model == model)
    || (unit == InputVideoSeconds && env.video.Some? &&
        (env.video.value.fromText == model || env.video.value.fromImage == model))
  }

  /** Pricing one piece is enough of a check: an accepted capability has a plan for exactly what its card serves. */
  lemma AcceptedCapabilitiesArePriced(env: Env, f: Fields, model: Model, unit: InputClass, quantity: Int64)
    requires ValidateSemantics(env, f) && Offers(env, model, unit)
    ensures Lookup(ProviderQwen, model).Ok?
    ensures NewPlan(ProviderQwen, model, unit, quantity, 0).Ok?
            <==> 1 <= quantity <= Lookup(ProviderQwen, model).value.inputLimit
  {
    assert Priced(model, unit);
    PlansExistWithinCards(ProviderQwen, model, unit, 1, 0);
    PlansExistWithinCards(ProviderQwen, model, unit, quantity, 0);
  }
}
