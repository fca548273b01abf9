/** The declaration a queued draft carries to the scheduled sweep: its stored form, whose
    declaration counts, and the bounded retries keyed to the draft's revision. */
module ScheduledSend {
  import opened Attribution
  import opened Text
  import opened Wrappers

  // ---- the stored declaration --------------------------------------------------

  datatype Value = Null | Number(n: int) | Str(s: string) | Array(items: seq<Value>) | Object(fields: map<string, Value>)

  const TWO32: int := 0x1_0000_0000
  const TWO63: int := 0x8000_0000_0000_0000
  const TWO64: int := 0x1_0000_0000_0000_0000

  type U32 = n: int | 0 <= n < TWO32

  type I64 = n: int | -TWO63 <= n < TWO63

  datatype Origin = FromBot | FromHuman

  datatype Declaration = Declaration(protocol: string, catalog: string, catalogVersion: U32, origin: Origin,
    declared: seq<string>, revision: I64, attempts: U32, parkReason: Option<string>)

  /** The constants of the catalog the declarations are validated against. */
  datatype Catalog = Catalog(protocol: string, name: string, version: U32)

  function OriginText(o: Origin): string {
    match o case FromBot => "bot" case FromHuman => "human"
  }

  function ParseOrigin(s: string): Origin {
    if s == "human" then FromHuman else FromBot
  }

  function StrItems(strings: seq<string>): seq<Value> {
    seq(|strings|, i requires 0 <= i < |strings| => Str(strings[i]))
  }

  function ToValue(d: Declaration): Value {
    Object(map[
      "protocol" := Str(d.protocol),
      "catalog" := Str(d.catalog),
      "catalog_version" := Number(d.catalogVersion),
      "origin" := Str(OriginText(d.origin)),
      "declared_attrs" := Array(StrItems(d.declared)),
      "revision" := Number(d.revision),
      "attempts" := Number(d.attempts),
      "park_reason" := match d.parkReason { case Some(s) => Str(s) case None => Null }])
  }

  function Get(v: Value, key: string): Option<Value> {
    if v.Object? && key in v.fields then Some(v.fields[key]) else None
  }

  function AsStr(v: Option<Value>): Option<string> {
    match v case Some(Str(s)) => Some(s) case _ => None
  }

  function AsU64(v: Option<Value>): Option<nat> {
    match v case Some(Number(n)) => (if 0 <= n < TWO64 then Some(n) else None) case _ => None
  }

  function AsI64(v: Option<Value>): Option<I64> {
    match v case Some(Number(n)) => (if -TWO63 <= n < TWO63 then Some(n) else None) case _ => None
  }

  function Or<T>(v: Option<T>, fallback: T): T {
    match v case Some(x) => x case None => fallback
  }

  function Strings(items: seq<Value>): seq<string> {
    if items == [] then []
    else (match items[0] case Str(s) => [s] case _ => []) + Strings(items[1..])
  }

  function AsStrings(v: Option<Value>): seq<string> {
    match v case Some(Array(items)) => Strings(items) case _ => []
  }

  /** Reads what is there and falls back where it is not; a wide number is cut to 32 bits. */
  function FromBlock(block: Value, catalog: Catalog): Option<Declaration> {
    match AsStr(Get(block, "protocol"))
    case None => None
    case Some(protocol) =>
      Some(Declaration(
        protocol,
        Or(AsStr(Get(block, "catalog")), catalog.name),
        Or(AsU64(Get(block, "catalog_version")), 0) % TWO32,
        ParseOrigin(Or(AsStr(Get(block, "origin")), "bot")),
        AsStrings(Get(block, "declared_attrs")),
        Or(AsI64(Get(block, "revision")), -1),
        Or(AsU64(Get(block, "attempts")), 0) % TWO32,
        AsStr(Get(block, "park_reason"))))
  }

  function FromMetadata(metadata: Option<Value>, catalog: Catalog): Option<Declaration> {
    if metadata.None? then None
    else match Get(metadata.value, "attribution")
      case Some(block) => FromBlock(block, catalog)
      case None => None
  }

  lemma {:induction false} StringsOfItems(strings: seq<string>)
    ensures Strings(StrItems(strings)) == strings
  {
    if strings == [] {
    } else {
      assert StrItems(strings)[1..] == StrItems(strings[1..]);
      StringsOfItems(strings[1..]);
      assert [strings[0]] + strings[1..] == strings;
    }
  }

  lemma TextFields(d: Declaration)
    ensures var v := ToValue(d);
      && AsStr(Get(v, "protocol")) == Some(d.protocol) && AsStr(Get(v, "catalog")) == Some(d.catalog)
      && AsStr(Get(v, "origin")) == Some(OriginText(d.origin)) && AsStr(Get(v, "park_reason")) == d.parkReason
  {
  }

  lemma NumberFields(d: Declaration)
    ensures var v := ToValue(d);
      && AsU64(Get(v, "catalog_version")) == Some(d.catalogVersion) && AsI64(Get(v, "revision")) == Some(d.revision)
      && AsU64(Get(v, "attempts")) == Some(d.attempts) && AsStrings(Get(v, "declared_attrs")) == d.declared
  {
    StringsOfItems(d.declared);
  }

  /** What is written under each name of the block. */
  lemma FieldsWritten(d: Declaration)
    ensures ToValue(d).Object?
    ensures var fields := ToValue(d).fields;
      && Holds(fields, "protocol", Str(d.protocol)) && Holds(fields, "catalog", Str(d.catalog))
      && Holds(fields, "origin", Str(if d.origin == FromHuman then "human" else "bot"))
      && Holds(fields, "catalog_version", Number(d.catalogVersion)) && Holds(fields, "revision", Number(d.revision))
      && Holds(fields, "attempts", Number(d.attempts))
      && Holds(fields, "park_reason", if d.parkReason.Some? then Str(d.parkReason.value) else Null)
      && (exists items :: Holds(fields, "declared_attrs", Array(items)) && Strings(items) == d.declared)
  {
    StringsOfItems(d.declared);
    assert Holds(ToValue(d).fields, "declared_attrs", Array(StrItems(d.declared)));
  }

  lemma BlockRoundTrip(d: Declaration, catalog: Catalog)
    ensures FromBlock(ToValue(d), catalog) == Some(d)
  {
    TextFields(d);
    NumberFields(d);
  }

  /** A stored declaration reads back as it was, whatever else the metadata holds. */
  lemma MetadataRoundTrip(d: Declaration, others: map<string, Value>, catalog: Catalog)
    ensures FromMetadata(Some(Object(others["attribution" := ToValue(d)])), catalog) == Some(d)
  {
    BlockRoundTrip(d, catalog);
  }

  /** What each stored field is read as, and what stands in for one that is missing or of
      another kind. */
  lemma FieldsRead(fields: map<string, Value>, catalog: Catalog)
    ensures var d := FromBlock(Object(fields), catalog);
      && (d.None? <==> forall p :: !Holds(fields, "protocol", Str(p)))
      && (d.Some? ==>
           && Holds(fields, "protocol", Str(d.value.protocol))
           && (Holds(fields, "catalog", Str(d.value.catalog)) || d.value.catalog == catalog.name)
           && (d.value.origin == FromHuman <==> Holds(fields, "origin", Str("human")))
           && (forall n :: Holds(fields, "catalog_version", Number(n)) && 0 <= n < 0x1_0000_0000 ==> d.value.catalogVersion == n)
           && (forall n :: Holds(fields, "attempts", Number(n)) && 0 <= n < 0x1_0000_0000 ==> d.value.attempts == n)
           && ("attempts" !in fields ==> d.value.attempts == 0)
           && (forall n :: Holds(fields, "revision", Number(n)) && -0x8000_0000_0000_0000 <= n < 0x8000_0000_0000_0000 ==>
                d.value.revision == n)
           && ("revision" !in fields ==> d.value.revision == -1)
           && (forall t :: Holds(fields, "park_reason", Str(t)) <==> d.value.parkReason == Some(t))
           && (forall items :: Holds(fields, "declared_attrs", Array(items)) ==> d.value.declared == Strings(items))
           && ("declared_attrs" !in fields ==> d.value.declared == []))
  {
    if "protocol" in fields && fields["protocol"].Str? {
      assert Holds(fields, "protocol", Str(fields["protocol"].s));
    }
  }

  predicate Holds(fields: map<string, Value>, key: string, value: Value) {
    key in fields && fields[key] == value
  }

  // ---- whose declaration counts ------------------------------------------------

  /** A fresh declaration of the keys, trimmed and deduplicated. */
  function NewBot(declared: seq<string>, revision: I64, catalog: Catalog): Declaration {
    Declaration(catalog.protocol, catalog.name, catalog.version, FromBot, Firsts(declared), revision, 0, None)
  }

  lemma {:induction false} TokensOfFirsts(declared: seq<string>)
    ensures Tokens(Firsts(declared)) == Tokens(declared)
  {
    FirstsListTokens(declared);
    forall k | k in Firsts(declared) ensures Trim(k) == k && k != "" {
      assert k in Tokens(declared);
      var s :| s in declared && Trim(s) != "" && Trim(s) == k;
      TrimIdempotent(s);
    }
    assert forall k :: k in Tokens(declared) ==> k in Firsts(declared);
  }

  /** Validated at exactly this revision, under the protocol in force. */
  predicate IsCurrent(d: Declaration, revision: int, catalog: Catalog) {
    d.protocol == catalog.protocol && d.revision == revision
  }

  datatype ScheduledOrigin = Bot | Human | Unknown

  predicate ByHuman(createdBy: Option<string>) {
    createdBy.Some? && "human:" <= createdBy.value
  }

  function ScheduledOriginOf(createdBy: Option<string>, persisted: Option<Declaration>, revision: int, catalog: Catalog)
    : ScheduledOrigin
  {
    if persisted.Some? && IsCurrent(persisted.value, revision, catalog) && persisted.value.origin == FromBot then Bot
    else if ByHuman(createdBy) then Human
    else if createdBy == Some("agent") || createdBy == Some("mcp") || createdBy == Some("cli") then Bot
    else Unknown
  }

  /** The persisted declaration is a bot's, made at this revision under the protocol in force. */
  predicate BotDeclared(persisted: Option<Declaration>, revision: int, catalog: Catalog) {
    persisted.Some? && persisted.value.protocol == catalog.protocol && persisted.value.revision == revision
    && persisted.value.origin == FromBot
  }

  /** A bot's current declaration decides; else who created the draft. */
  lemma OriginDecided(createdBy: Option<string>, persisted: Option<Declaration>, revision: int, catalog: Catalog)
    ensures var o := ScheduledOriginOf(createdBy, persisted, revision, catalog);
      if BotDeclared(persisted, revision, catalog) then o == Bot
      else
        && (o == Human <==> exists name :: createdBy == Some("human:" + name))
        && (o == Bot <==> createdBy == Some("agent") || createdBy == Some("mcp") || createdBy == Some("cli"))
  {
    if createdBy.Some? {
      PrefixedBy(createdBy.value, "human:");
      if ByHuman(createdBy) {
        NotAgent(createdBy.value);
      }
    }
  }

  lemma PrefixedBy(s: string, prefix: string)
    ensures prefix <= s <==> exists rest :: s == prefix + rest
  {
    if prefix <= s {
      assert s == prefix + s[|prefix|..];
    }
  }

  lemma NotAgent(s: string)
    requires "human:" <= s
    ensures s != "agent" && s != "mcp" && s != "cli"
  {
    assert |s| >= 6;
  }

  function DeclarationOrigin(o: ScheduledOrigin): Origin {
    if o == Human then FromHuman else FromBot
  }

  /** The declared keys to resolve with, and whether a declaration is required. */
  function ScheduledInputs(createdBy: Option<string>, humanApproved: bool, persisted: Option<Declaration>,
                           revision: int, catalog: Catalog): (seq<string>, bool)
  {
    (if persisted.Some? && IsCurrent(persisted.value, revision, catalog) then persisted.value.declared else [],
     !(ScheduledOriginOf(createdBy, persisted, revision, catalog) == Human && humanApproved))
  }

  // ---- bounded attempts ----------------------------------------------------------

  const MAX_ATTEMPTS: nat := 3

  datatype AttemptOutcome = Retry(attempts: U32) | Park(attempts: U32)

  function AdvanceAttempt(prior: U32): AttemptOutcome {
    var attempts: U32 := if prior + 1 < TWO32 then prior + 1 else prior;
    if attempts >= MAX_ATTEMPTS then Park(attempts) else Retry(attempts)
  }

  function FailedAttempt(origin: Origin, declared: seq<string>, revision: I64, outcome: AttemptOutcome, catalog: Catalog)
    : Declaration
  {
    Declaration(catalog.protocol, catalog.name, catalog.version, origin, declared, revision, outcome.attempts,
      if outcome.Park? then Some("attribution_exhausted") else None)
  }

  datatype FailureAction = RetryWith(block: Value) | ParkWith(block: Value) | HumanReview

  function FailureActionOf(origin: ScheduledOrigin, declared: seq<string>, revision: I64, prior: U32, catalog: Catalog)
    : FailureAction
  {
    if origin == Human then HumanReview
    else
      var outcome := AdvanceAttempt(prior);
      var block := ToValue(FailedAttempt(DeclarationOrigin(origin), declared, revision, outcome, catalog));
      if outcome.Park? then ParkWith(block) else RetryWith(block)
  }

  // ---- the history of a draft ------------------------------------------------------

  datatype Status = Ready | PendingReview | Blocked | Sending | Sent

  datatype Row = Row(createdBy: Option<string>, revision: I64, status: Status, scheduled: bool,
    metadata: map<string, Value>, approved: Option<I64>)

  /** Beside the row: the declarations validated so far, each with its revision, and the
      failed attempts since the last edit or declaration. */
  datatype World = World(row: Row, validated: set<(int, set<string>)>, failures: nat)

  datatype Step =
    | Edit
    | Declare(declared: seq<string>, context: Context)
    | Approve
    | Queue
    | Claim
    | Release(to: Status)
    | Proceed(context: Context, delivered: bool)
    | Fail(context: Context)

  predicate Editable(s: Status) {
    s == Ready || s == PendingReview || s == Blocked
  }

  predicate HumanApproved(row: Row) {
    row.approved == Some(row.revision)
  }

  function Persisted(row: Row, catalog: Catalog): Option<Declaration> {
    FromMetadata(Some(Object(row.metadata)), catalog)
  }

  function Inputs(row: Row, catalog: Catalog): (seq<string>, bool) {
    ScheduledInputs(row.createdBy, HumanApproved(row), Persisted(row, catalog), row.revision, catalog)
  }

  function OriginOf(row: Row, catalog: Catalog): ScheduledOrigin {
    ScheduledOriginOf(row.createdBy, Persisted(row, catalog), row.revision, catalog)
  }

  /** The attempts recorded at the current revision. */
  function PriorAttempts(row: Row, catalog: Catalog): U32 {
    var d := Persisted(row, catalog);
    if d.Some? && IsCurrent(d.value, row.revision, catalog) then d.value.attempts else 0
  }

  /** What resolving the draft's declaration at the sweep yields. */
  ghost function Swept(row: Row, context: Context, catalog: Catalog): State {
    StateOf(context, Tokens(Inputs(row, catalog).0), Inputs(row, catalog).1)
  }

  ghost predicate Enabled(w: World, step: Step, catalog: Catalog) {
    match step
    case Edit => Editable(w.row.status) && w.row.revision + 1 < TWO63
    case Declare(declared, context) =>
      (w.row.status == Ready || w.row.status == PendingReview) && StateOf(context, Tokens(declared), true) == Attributed
    case Approve => Editable(w.row.status)
    case Queue => w.row.status == Ready || w.row.status == PendingReview
    case Claim => w.row.status == Ready && w.row.scheduled
    case Release(to) => w.row.status == Sending && Editable(to)
    case Proceed(context, _) =>
      w.row.status == Sending && context.humanApproved == HumanApproved(w.row)
      && Swept(w.row, context, catalog) == Attributed
    case Fail(context) =>
      w.row.status == Sending && context.humanApproved == HumanApproved(w.row)
      && Swept(w.row, context, catalog) != Attributed
  }

  function ActionOf(row: Row, catalog: Catalog): FailureAction {
    FailureActionOf(OriginOf(row, catalog), Inputs(row, catalog).0, row.revision, PriorAttempts(row, catalog), catalog)
  }

  /** The store stamps a written block with the row's own revision. */
  function Stamp(row: Row, block: Value): Row {
    row.(metadata := row.metadata["attribution" :=
      if block.Object? then Object(block.fields["revision" := Number(row.revision)]) else block])
  }

  ghost function Next(w: World, step: Step, catalog: Catalog): World
    requires Enabled(w, step, catalog)
  {
    var row := w.row;
    match step
    case Edit => World(row.(revision := row.revision + 1, approved := None), w.validated, 0)
    case Declare(declared, _) =>
      World(Stamp(row, ToValue(NewBot(declared, row.revision, catalog))).(status := Ready, scheduled := true),
        w.validated + {(row.revision, Tokens(declared))}, 0)
    case Approve => w.(row := row.(status := Ready, approved := Some(row.revision)))
    case Queue => w.(row := row.(status := Ready, scheduled := true, approved := Some(row.revision)))
    case Claim => w.(row := row.(status := Sending))
    case Release(to) => w.(row := row.(status := to))
    case Proceed(_, delivered) =>
      w.(row := row.(status := if delivered then Sent else PendingReview, scheduled := false))
    case Fail(_) =>
      match ActionOf(row, catalog)
      case RetryWith(block) => w.(row := Stamp(row, block).(status := Ready), failures := w.failures + 1)
      case ParkWith(block) =>
        w.(row := Stamp(row, block).(status := PendingReview, scheduled := false), failures := w.failures + 1)
      case HumanReview => w.(row := row.(status := PendingReview, scheduled := false))
  }

  ghost predicate Runs(first: World, steps: seq<Step>, last: World, catalog: Catalog)
    decreases |steps|
  {
    if steps == [] then first == last
    else Enabled(first, steps[0], catalog) && Runs(Next(first, steps[0], catalog), steps[1..], last, catalog)
  }

  /** A new draft: no declaration, no approval. */
  predicate Created(w: World) {
    w.row.status == Ready && !w.row.scheduled && "attribution" !in w.row.metadata && w.row.approved == None
    && w.validated == {} && w.failures == 0
  }

  // ---- what every history keeps ------------------------------------------------------

  lemma StampedReadsBack(row: Row, d: Declaration, catalog: Catalog)
    requires d.revision == row.revision
    ensures Persisted(Stamp(row, ToValue(d)), catalog) == Some(d)
  {
    var fields := ToValue(d).fields;
    assert fields["revision" := Number(row.revision)] == fields;
    MetadataRoundTrip(d, row.metadata, catalog);
  }

  /** Whatever is declared at the current revision was validated at it; a declaration is
      never newer than the row; and the stored count is the true one. */
  ghost predicate Inv(w: World, catalog: Catalog) {
    var d := Persisted(w.row, catalog);
    && (d.Some? ==> d.value.revision <= w.row.revision)
    && (d.Some? && IsCurrent(d.value, w.row.revision, catalog) && Tokens(d.value.declared) != {} ==>
         (w.row.revision, Tokens(d.value.declared)) in w.validated)
    && PriorAttempts(w.row, catalog) == if w.failures < TWO32 then w.failures else TWO32 - 1
  }

  /** What a declaration stores: the keys, validated at the row's revision, by a bot, with the
      count started again. */
  lemma DeclareStores(w: World, declared: seq<string>, context: Context, catalog: Catalog)
    requires Enabled(w, Declare(declared, context), catalog)
    ensures var after := Next(w, Declare(declared, context), catalog);
      var d := Persisted(after.row, catalog);
      && after.row.status == Ready && after.row.scheduled && after.row.revision == w.row.revision
      && d.Some? && d.value.origin == FromBot && d.value.revision == w.row.revision && d.value.attempts == 0
      && d.value.parkReason == None && d.value.protocol == catalog.protocol && d.value.catalog == catalog.name
      && d.value.catalogVersion == catalog.version && Tokens(d.value.declared) == Tokens(declared)
      && OriginOf(after.row, catalog) == Bot && Inputs(after.row, catalog) == (d.value.declared, true)
  {
    StampedReadsBack(w.row, NewBot(declared, w.row.revision, catalog), catalog);
    TokensOfFirsts(declared);
  }

  lemma DeclareKeeps(w: World, declared: seq<string>, context: Context, catalog: Catalog)
    requires Inv(w, catalog) && Enabled(w, Declare(declared, context), catalog)
    ensures Inv(Next(w, Declare(declared, context), catalog), catalog)
  {
    StampedReadsBack(w.row, NewBot(declared, w.row.revision, catalog), catalog);
    TokensOfFirsts(declared);
  }

  /** What a failed sweep writes: the keys it resolved, at the row's revision, counted up. */
  lemma FailWrites(w: World, context: Context, catalog: Catalog) returns (d: Declaration)
    requires Enabled(w, Fail(context), catalog) && OriginOf(w.row, catalog) != Human
    ensures var after := Next(w, Fail(context), catalog);
      && Persisted(after.row, catalog) == Some(d) && IsCurrent(d, w.row.revision, catalog)
      && d.declared == Inputs(w.row, catalog).0 && d.origin == FromBot && after.row.createdBy == w.row.createdBy
      && d.attempts == AdvanceAttempt(PriorAttempts(w.row, catalog)).attempts
      && d.parkReason == (if AdvanceAttempt(PriorAttempts(w.row, catalog)).Park? then Some("attribution_exhausted") else None)
      && d.protocol == catalog.protocol && d.catalog == catalog.name && d.catalogVersion == catalog.version
      && after.row.revision == w.row.revision && after.validated == w.validated && after.failures == w.failures + 1
  {
    var outcome := AdvanceAttempt(PriorAttempts(w.row, catalog));
    d := FailedAttempt(DeclarationOrigin(OriginOf(w.row, catalog)), Inputs(w.row, catalog).0, w.row.revision,
      outcome, catalog);
    StampedReadsBack(w.row, d, catalog);
  }

  lemma FailKeeps(w: World, context: Context, catalog: Catalog)
    requires Inv(w, catalog) && Enabled(w, Fail(context), catalog)
    ensures Inv(Next(w, Fail(context), catalog), catalog)
  {
    if OriginOf(w.row, catalog) != Human {
      var d := FailWrites(w, context, catalog);
    }
  }

  lemma StepKeeps(w: World, step: Step, catalog: Catalog)
    requires Inv(w, catalog) && Enabled(w, step, catalog)
    ensures Inv(Next(w, step, catalog), catalog)
  {
    match step {
      case Declare(declared, context) => DeclareKeeps(w, declared, context, catalog);
      case Fail(context) => FailKeeps(w, context, catalog);
      case _ =>
    }
  }

  lemma {:induction false} RunsKeep(first: World, steps: seq<Step>, last: World, catalog: Catalog)
    requires Inv(first, catalog) && Runs(first, steps, last, catalog)
    ensures Inv(last, catalog) && last.row.createdBy == first.row.createdBy
    decreases |steps|
  {
    if steps == [] {
    } else {
      StepKeeps(first, steps[0], catalog);
      RunsKeep(Next(first, steps[0], catalog), steps[1..], last, catalog);
    }
  }

  lemma CreatedIsValid(w: World, catalog: Catalog)
    requires Created(w)
    ensures Inv(w, catalog)
  {
  }

  /** A draft no human created goes out only on keys declared and validated at its current
      revision, however it was edited, approved and retried before, and every one of them
      is admitted by the facts at the time of the sweep. */
  lemma BotNeedsCurrentDeclaration(first: World, steps: seq<Step>, w: World, context: Context, delivered: bool,
                                   catalog: Catalog)
    requires Created(first) && !ByHuman(first.row.createdBy)
    requires Runs(first, steps, w, catalog) && Enabled(w, Proceed(context, delivered), catalog)
    ensures var tokens := Tokens(Inputs(w.row, catalog).0);
      && tokens != {} && (w.row.revision, tokens) in w.validated
      && forall t :: t in tokens ==> CatalogKey(t).Some? && Admits(context, CatalogKey(t).value)
  {
    CreatedIsValid(first, catalog);
    RunsKeep(first, steps, w, catalog);
    var tokens := Tokens(Inputs(w.row, catalog).0);
    assert Inputs(w.row, catalog).1;
    AttributedMeans(context, tokens, true);
  }

  /** What counts as validated was declared by a step of the history, at that revision. */
  ghost predicate DeclaredIn(first: World, steps: seq<Step>, revision: int, tokens: set<string>, catalog: Catalog)
    decreases |steps|
  {
    steps != [] && Enabled(first, steps[0], catalog)
    && ((steps[0].Declare? && first.row.revision == revision && Tokens(steps[0].declared) == tokens)
        || DeclaredIn(Next(first, steps[0], catalog), steps[1..], revision, tokens, catalog))
  }

  lemma {:induction false} ValidatedWasDeclared(first: World, steps: seq<Step>, last: World, revision: int,
                                                tokens: set<string>, catalog: Catalog)
    requires Runs(first, steps, last, catalog)
    ensures (revision, tokens) in last.validated <==>
      (revision, tokens) in first.validated || DeclaredIn(first, steps, revision, tokens, catalog)
    decreases |steps|
  {
    if steps == [] {
    } else {
      ValidatedWasDeclared(Next(first, steps[0], catalog), steps[1..], last, revision, tokens, catalog);
    }
  }

  /** Two failures since the last edit or declaration leave the draft due; from the third
      on, each parks it for review. */
  lemma ThirdFailureParks(w: World, context: Context, catalog: Catalog)
    requires Inv(w, catalog) && Enabled(w, Fail(context), catalog) && OriginOf(w.row, catalog) != Human
    ensures var after := Next(w, Fail(context), catalog);
      && after.failures == w.failures + 1
      && (after.row.status == Ready <==> w.failures < 2)
      && (after.row.status == PendingReview && !after.row.scheduled <==> w.failures >= 2)
      && after.row.revision == w.row.revision
      && var d := Persisted(after.row, catalog);
        && d.Some? && d.value.origin == FromBot && d.value.revision == w.row.revision
        && d.value.declared == Inputs(w.row, catalog).0
        && d.value.attempts == (if w.failures + 1 < 0x1_0000_0000 then w.failures + 1 else 0xFFFF_FFFF)
        && d.value.parkReason == (if w.failures < 2 then None else Some("attribution_exhausted"))
  {
    var d := FailWrites(w, context, catalog);
  }

  /** An edit makes the declaration stale and starts the count again. */
  lemma EditResets(w: World, catalog: Catalog)
    requires Inv(w, catalog) && Enabled(w, Edit, catalog)
    ensures var after := Next(w, Edit, catalog);
      PriorAttempts(after.row, catalog) == 0 && Inputs(after.row, catalog).0 == [] && !HumanApproved(after.row)
      && Inputs(after.row, catalog).1
  {
  }

  predicate Approves(step: Step) {
    step.Approve? || step.Queue?
  }

  /** An approval lasts until the draft is edited. */
  lemma {:induction false} ApprovalLasts(first: World, steps: seq<Step>, last: World, catalog: Catalog)
    requires Runs(first, steps, last, catalog)
    requires forall i :: 0 <= i < |steps| ==> !steps[i].Edit?
    ensures HumanApproved(last.row) <==> HumanApproved(first.row) || exists i :: 0 <= i < |steps| && Approves(steps[i])
    decreases |steps|
  {
    if steps == [] {
    } else {
      var next := Next(first, steps[0], catalog);
      assert !steps[0].Edit?;
      ApprovalStep(first, steps[0], catalog);
      ApprovalLasts(next, steps[1..], last, catalog);
      SomeInTail(steps);
    }
  }

  lemma ApprovalStep(w: World, step: Step, catalog: Catalog)
    requires Enabled(w, step, catalog) && !step.Edit?
    ensures HumanApproved(Next(w, step, catalog).row) <==> HumanApproved(w.row) || Approves(step)
  {
  }

  lemma SomeInTail(steps: seq<Step>)
    requires steps != []
    ensures (exists i :: 0 <= i < |steps| && Approves(steps[i])) <==>
      Approves(steps[0]) || exists i :: 0 <= i < |steps[1..]| && Approves(steps[1..][i])
  {
    if i :| 0 <= i < |steps[1..]| && Approves(steps[1..][i]) {
      assert Approves(steps[i + 1]);
    }
    if i :| 0 < i < |steps| && Approves(steps[i]) {
      assert Approves(steps[1..][i - 1]);
    }
  }

  /** The failures of a run that leave the draft due. */
  ghost function RetriesOf(first: World, steps: seq<Step>, catalog: Catalog): nat
    decreases |steps|
  {
    if steps == [] || !Enabled(first, steps[0], catalog) then 0
    else
      var next := Next(first, steps[0], catalog);
      (if steps[0].Fail? && next.row.status == Ready then 1 else 0) + RetriesOf(next, steps[1..], catalog)
  }

  predicate NoReset(steps: seq<Step>) {
    forall i :: 0 <= i < |steps| ==> !steps[i].Edit? && !steps[i].Declare?
  }

  /** Without an edit or a new declaration a draft is retried at most twice, whatever
      approvals and claims come between. */
  lemma {:induction false} AtMostTwoRetries(first: World, steps: seq<Step>, last: World, catalog: Catalog)
    requires Inv(first, catalog) && Runs(first, steps, last, catalog) && NoReset(steps)
    ensures RetriesOf(first, steps, catalog) + first.failures <= if first.failures < 2 then 2 else first.failures
    decreases |steps|
  {
    if steps == [] {
    } else {
      var step, next := steps[0], Next(first, steps[0], catalog);
      assert !step.Edit? && !step.Declare?;
      StepKeeps(first, step, catalog);
      AtMostTwoRetries(next, steps[1..], last, catalog);
      if step.Fail? && OriginOf(first.row, catalog) != Human {
        ThirdFailureParks(first, step.context, catalog);
      }
    }
  }

  /** A bot's declaration stands: made since the last edit, or standing before and not edited. */
  predicate DeclaredSinceEdit(steps: seq<Step>, was: bool) {
    if steps == [] then was else DeclaredSinceEdit(steps[1..], Stands(steps[0], was))
  }

  predicate Stands(step: Step, was: bool) {
    step.Declare? || (was && !step.Edit?)
  }

  /** On a human's draft only a bot writes a declaration, which is current while it stands. */
  ghost predicate BotBlock(row: Row, stands: bool, catalog: Catalog) {
    var d := Persisted(row, catalog);
    && ByHuman(row.createdBy)
    && (d.Some? ==> d.value.revision <= row.revision && d.value.origin == FromBot)
    && (stands <==> d.Some? && IsCurrent(d.value, row.revision, catalog))
  }

  lemma BotBlockStep(w: World, step: Step, stands: bool, catalog: Catalog)
    requires BotBlock(w.row, stands, catalog) && Enabled(w, step, catalog)
    ensures BotBlock(Next(w, step, catalog).row, Stands(step, stands), catalog)
  {
    match step {
      case Declare(declared, _) => StampedReadsBack(w.row, NewBot(declared, w.row.revision, catalog), catalog);
      case Fail(context) =>
        if OriginOf(w.row, catalog) != Human {
          var d := FailWrites(w, context, catalog);
        }
      case _ =>
    }
  }

  lemma {:induction false} BotBlockRun(first: World, steps: seq<Step>, last: World, stands: bool, catalog: Catalog)
    requires BotBlock(first.row, stands, catalog) && Runs(first, steps, last, catalog)
    ensures BotBlock(last.row, DeclaredSinceEdit(steps, stands), catalog)
    decreases |steps|
  {
    if steps == [] {
    } else {
      var mid := Next(first, steps[0], catalog);
      BotBlockStep(first, steps[0], stands, catalog);
      BotBlockRun(mid, steps[1..], last, Stands(steps[0], stands), catalog);
    }
  }

  /** Over every history a human's draft is of human origin exactly while no bot's declaration
      stands: a declaration makes it a bot's, and the next edit gives it back. */
  lemma HumanOriginExact(first: World, steps: seq<Step>, last: World, stands: bool, catalog: Catalog)
    requires BotBlock(first.row, stands, catalog) && Runs(first, steps, last, catalog)
    ensures OriginOf(last.row, catalog) == Human <==> !DeclaredSinceEdit(steps, stands)
    ensures OriginOf(last.row, catalog) == Bot <==> DeclaredSinceEdit(steps, stands)
    ensures Inputs(last.row, catalog).1 <==> DeclaredSinceEdit(steps, stands) || !HumanApproved(last.row)
  {
    BotBlockRun(first, steps, last, stands, catalog);
  }

  lemma {:induction false} NeverDeclared(steps: seq<Step>)
    requires forall i :: 0 <= i < |steps| ==> !steps[i].Declare?
    ensures !DeclaredSinceEdit(steps, false)
  {
    if steps == [] {
    } else {
      assert !steps[0].Declare?;
      NeverDeclared(steps[1..]);
    }
  }

  lemma {:induction false} NoBlockWritten(first: World, steps: seq<Step>, last: World, catalog: Catalog)
    requires Runs(first, steps, last, catalog)
    requires ByHuman(first.row.createdBy) && "attribution" !in first.row.metadata
    requires forall i :: 0 <= i < |steps| ==> !steps[i].Declare?
    ensures ByHuman(last.row.createdBy) && "attribution" !in last.row.metadata
    decreases |steps|
  {
    if steps == [] {
    } else {
      assert !steps[0].Declare?;
      NoBlockWritten(Next(first, steps[0], catalog), steps[1..], last, catalog);
    }
  }

  /** So one on which no bot declares stays a human's, and failures write no declaration. */
  lemma HumanStaysHuman(first: World, steps: seq<Step>, last: World, catalog: Catalog)
    requires Runs(first, steps, last, catalog)
    requires ByHuman(first.row.createdBy) && "attribution" !in first.row.metadata
    requires forall i :: 0 <= i < |steps| ==> !steps[i].Declare?
    ensures ByHuman(last.row.createdBy) && "attribution" !in last.row.metadata
    ensures OriginOf(last.row, catalog) == Human
    ensures HumanApproved(last.row) <==> !Inputs(last.row, catalog).1
  {
    NoBlockWritten(first, steps, last, catalog);
    NeverDeclared(steps);
    HumanOriginExact(first, steps, last, false, catalog);
  }
}
