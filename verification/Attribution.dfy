/** Resolving a bot's declared attributes against the facts the host derives: who may assert
    a key, the tri-state observation of a host key, and the set submitted for scoring. */
module Attribution {
  import opened Ordering
  import opened Text
  import opened Wrappers

  // ---- the catalog -----------------------------------------------------------

  datatype Attr =
    | Informational | FinancialContent | LegalContent | CommitmentLanguage | HasPii | UncitedClaims | AgentDrafted
    | TylerApproved | AuthorizedCampaign
    | ReplyToThread | KnownContact | FrequentContact | ColdEmail | ReadOnly | DraftOnly | MoveToFolder | DeleteMessage
    | UnauthorizedOutreach | HumanEdited | ShortBody | HasAttachment | SensitiveAttachment | InternalDomain
    | TrustedDomain | UnknownDomain | FreemailDomain | DisposableDomain | GovDomain | BulkSend | HasBcc

  function Name(a: Attr): string {
    match a
    case Informational => "informational"
    case FinancialContent => "financial_content"
    case LegalContent => "legal_content"
    case CommitmentLanguage => "commitment_language"
    case HasPii => "has_pii"
    case UncitedClaims => "uncited_claims"
    case AgentDrafted => "agent_drafted"
    case TylerApproved => "tyler_approved"
    case AuthorizedCampaign => "authorized_campaign"
    case ReplyToThread => "reply_to_thread"
    case KnownContact => "known_contact"
    case FrequentContact => "frequent_contact"
    case ColdEmail => "cold_email"
    case ReadOnly => "read_only"
    case DraftOnly => "draft_only"
    case MoveToFolder => "move_to_folder"
    case DeleteMessage => "delete_message"
    case UnauthorizedOutreach => "unauthorized_outreach"
    case HumanEdited => "human_edited"
    case ShortBody => "short_body"
    case HasAttachment => "has_attachment"
    case SensitiveAttachment => "sensitive_attachment"
    case InternalDomain => "internal_domain"
    case TrustedDomain => "trusted_domain"
    case UnknownDomain => "unknown_domain"
    case FreemailDomain => "freemail_domain"
    case DisposableDomain => "disposable_domain"
    case GovDomain => "gov_domain"
    case BulkSend => "bulk_send"
    case HasBcc => "has_bcc"
  }

  /** Few names are compared at a time. */
  lemma SameName(a: Attr, b: Attr)
    requires Name(a) == Name(b)
    ensures a == b
  {
    if ProvenanceOf(a) != HostDerived {
      OtherName(a, b);
    } else if ProvenanceOf(b) != HostDerived {
      OtherName(b, a);
    } else {
      HostName(a, b);
    }
  }

  lemma HostName(a: Attr, b: Attr)
    requires Name(a) == Name(b) && ProvenanceOf(a) == ProvenanceOf(b) == HostDerived
    ensures a == b
  {
  }

  lemma OtherName(a: Attr, b: Attr)
    requires Name(a) == Name(b) && ProvenanceOf(a) != HostDerived
    ensures a == b
  {
    if ProvenanceOf(a) == Declarable {
      DeclarableName(a, b);
    } else {
      AttestedName(a, b);
    }
  }

  lemma DeclarableName(a: Attr, b: Attr)
    requires Name(a) == Name(b) && ProvenanceOf(a) == Declarable
    ensures a == b
  {
  }

  lemma AttestedName(a: Attr, b: Attr)
    requires Name(a) == Name(b) && ProvenanceOf(a) == RequiresAttestation
    ensures a == b
  {
  }

  lemma OneKey(name: string)
    ensures forall a, b :: Name(a) == name && Name(b) == name ==> a == b
  {
    forall a, b | Name(a) == name && Name(b) == name ensures a == b {
      SameName(a, b);
    }
  }

  /** The catalog key with this name. */
  function CatalogKey(name: string): (r: Option<Attr>)
    ensures r.Some? ==> Name(r.value) == name
    ensures r.None? ==> forall a :: Name(a) != name
  {
    OneKey(name);
    if a :| Name(a) == name then Some(a) else None
  }

  /** The names of the catalog keys are distinct. */
  lemma CatalogKeyOfName(a: Attr)
    ensures CatalogKey(Name(a)) == Some(a)
  {
    SameName(a, CatalogKey(Name(a)).value);
  }

  // ---- provenance ------------------------------------------------------------

  datatype Provenance = Declarable | HostDerived | RequiresAttestation

  function ProvenanceOf(a: Attr): Provenance {
    match a
    case Informational | FinancialContent | LegalContent | CommitmentLanguage | HasPii | UncitedClaims | AgentDrafted =>
      Declarable
    case TylerApproved | AuthorizedCampaign => RequiresAttestation
    case _ => HostDerived
  }

  const EXCLUSIVITY_PAIRS: seq<(Attr, Attr)> := [
    (ColdEmail, KnownContact), (ColdEmail, FrequentContact), (ColdEmail, ReplyToThread),
    (InternalDomain, UnknownDomain)]

  predicate Exclusive(a: Attr, b: Attr)
    ensures Exclusive(a, b) <==>
      || (a == ColdEmail && (b == KnownContact || b == FrequentContact || b == ReplyToThread))
      || (b == ColdEmail && (a == KnownContact || a == FrequentContact || a == ReplyToThread))
      || (a == InternalDomain && b == UnknownDomain) || (a == UnknownDomain && b == InternalDomain)
  {
    assert forall p :: p in EXCLUSIVITY_PAIRS <==>
      || p == (ColdEmail, KnownContact) || p == (ColdEmail, FrequentContact) || p == (ColdEmail, ReplyToThread)
      || p == (InternalDomain, UnknownDomain);
    (a, b) in EXCLUSIVITY_PAIRS || (b, a) in EXCLUSIVITY_PAIRS
  }

  /** The first partner of the key that is present, in the order of the pairs. */
  function PartnerAmong(a: Attr, pairs: seq<(Attr, Attr)>, present: seq<Attr>): (r: Option<Attr>)
    ensures r.Some? ==> r.value in present && ((a, r.value) in pairs || (r.value, a) in pairs)
    ensures r.None? ==> forall p :: p in present ==> (a, p) !in pairs && (p, a) !in pairs
  {
    if pairs == [] then None
    else if pairs[0].0 == a && pairs[0].1 in present then Some(pairs[0].1)
    else if pairs[0].1 == a && pairs[0].0 in present then Some(pairs[0].0)
    else PartnerAmong(a, pairs[1..], present)
  }

  function ConflictingPartner(a: Attr, present: seq<Attr>): (r: Option<Attr>)
    ensures r.Some? <==> exists p :: p in present && Exclusive(a, p)
  {
    PartnerAmong(a, EXCLUSIVITY_PAIRS, present)
  }

  // ---- what the host derives ---------------------------------------------------

  /** The facts gathered about a send, and the three classifiers of recipient domains. */
  datatype Context = Context(
    accountDomain: Option<string>, recipientDomains: seq<string>, recipientCount: nat, isReply: bool, hasBcc: bool,
    attachmentCount: nat, sensitiveAttachment: bool, trustedDomains: seq<string>, draftOnly: bool,
    humanApproved: bool, humanEdited: Option<bool>, shortBody: Option<bool>, knownContact: Option<bool>,
    frequentContact: Option<bool>, coldEmail: Option<bool>, unknownDomain: Option<bool>,
    informational: Option<bool>, hasPii: Option<bool>, financialContent: Option<bool>, legalContent: Option<bool>,
    commitmentLanguage: Option<bool>, uncitedClaims: Option<bool>,
    freemail: string -> bool, disposable: string -> bool, gov: string -> bool)

  predicate Yes(fact: Option<bool>) {
    fact == Some(true)
  }

  predicate AllRecipientsInternal(c: Context) {
    c.accountDomain.Some? && c.recipientDomains != []
    && forall d :: d in c.recipientDomains ==> d == c.accountDomain.value
  }

  predicate AnyTrustedDomain(c: Context) {
    exists d :: d in c.recipientDomains && d in c.trustedDomains
  }

  predicate AnyRecipientDomain(c: Context, p: string -> bool) {
    exists d :: d in c.recipientDomains && p(d)
  }

  /** The host derives the key. */
  predicate Shows(c: Context, a: Attr) {
    match a
    case ReplyToThread => c.isReply
    case KnownContact => Yes(c.knownContact)
    case FrequentContact => Yes(c.frequentContact)
    case ColdEmail => Yes(c.coldEmail)
    case InternalDomain => AllRecipientsInternal(c)
    case TrustedDomain => AnyTrustedDomain(c)
    case UnknownDomain => Yes(c.unknownDomain)
    case FreemailDomain => AnyRecipientDomain(c, c.freemail)
    case DisposableDomain => AnyRecipientDomain(c, c.disposable)
    case GovDomain => AnyRecipientDomain(c, c.gov)
    case DraftOnly => c.draftOnly
    case TylerApproved => c.humanApproved
    case Informational => Yes(c.informational)
    case HumanEdited => Yes(c.humanEdited)
    case ShortBody => Yes(c.shortBody)
    case HasAttachment => c.attachmentCount > 0
    case SensitiveAttachment => c.sensitiveAttachment
    case HasPii => Yes(c.hasPii)
    case UncitedClaims => Yes(c.uncitedClaims)
    case FinancialContent => Yes(c.financialContent)
    case LegalContent => Yes(c.legalContent)
    case CommitmentLanguage => Yes(c.commitmentLanguage)
    case BulkSend => c.recipientCount >= 6
    case HasBcc => c.hasBcc
    case _ => false
  }

  ghost predicate Distinct<T(!new)>(s: seq<T>) {
    forall i, j :: 0 <= i < j < |s| ==> s[i] != s[j]
  }

  /** The keys a host can derive, in the order it lists them. */
  const LISTED: seq<Attr> := [
    ReplyToThread, KnownContact, FrequentContact, ColdEmail, InternalDomain, TrustedDomain, UnknownDomain,
    FreemailDomain, DisposableDomain, GovDomain, DraftOnly, TylerApproved, Informational, HumanEdited, ShortBody,
    HasAttachment, SensitiveAttachment, HasPii, UncitedClaims, FinancialContent, LegalContent, CommitmentLanguage,
    BulkSend, HasBcc]

  function ShownOf(c: Context): Attr -> Option<Attr> {
    a => if Shows(c, a) then Some(a) else None
  }

  /** Those of them that hold of the send. */
  function Derived(c: Context): seq<Attr> {
    Collect(LISTED, ShownOf(c))
  }

  lemma ListedDistinct()
    ensures Distinct(LISTED)
  {
  }

  lemma ShownIsListed(c: Context, a: Attr)
    requires Shows(c, a)
    ensures a in LISTED
  {
  }

  /** The host lists every key that holds of the send, once. */
  lemma DerivedMembers(c: Context)
    ensures Distinct(Derived(c))
    ensures forall a :: a in Derived(c) <==> Shows(c, a)
  {
    ListedDistinct();
    CollectDistinct(LISTED, ShownOf(c));
    CollectMembers(LISTED, ShownOf(c));
    forall a | Shows(c, a) ensures a in Derived(c) {
      ShownIsListed(c, a);
      assert ShownOf(c)(a) == Some(a);
    }
  }

  // ---- the keys by name ----------------------------------------------------------

  function Names(attrs: seq<Attr>): (r: seq<string>)
    ensures |r| == |attrs| && forall i :: 0 <= i < |r| ==> r[i] == Name(attrs[i])
  {
    seq(|attrs|, i requires 0 <= i < |attrs| => Name(attrs[i]))
  }

  lemma NamesMembers(attrs: seq<Attr>)
    ensures forall s :: s in Names(attrs) <==> exists a :: a in attrs && s == Name(a)
  {
  }

  /** The key is listed exactly if the fact holds. */
  predicate Tells(names: seq<string>, key: string, fact: bool) {
    key in names <==> fact
  }

  predicate TellsRelationship(c: Context, names: seq<string>) {
    && Tells(names, "reply_to_thread", c.isReply)
    && Tells(names, "known_contact", c.knownContact == Some(true))
    && Tells(names, "frequent_contact", c.frequentContact == Some(true))
    && Tells(names, "cold_email", c.coldEmail == Some(true))
  }

  predicate TellsDomains(c: Context, names: seq<string>) {
    && Tells(names, "internal_domain", c.accountDomain.Some? && c.recipientDomains != []
         && forall d :: d in c.recipientDomains ==> d == c.accountDomain.value)
  }

  predicate TellsDomainTrust(c: Context, names: seq<string>) {
    && Tells(names, "trusted_domain", exists d :: d in c.recipientDomains && d in c.trustedDomains)
    && Tells(names, "gov_domain", exists d :: d in c.recipientDomains && c.gov(d))
  }

  predicate TellsDomainClasses(c: Context, names: seq<string>) {
    && Tells(names, "freemail_domain", exists d :: d in c.recipientDomains && c.freemail(d))
    && Tells(names, "disposable_domain", exists d :: d in c.recipientDomains && c.disposable(d))
  }

  predicate TellsIntent(c: Context, names: seq<string>) {
    && Tells(names, "draft_only", c.draftOnly)
    && Tells(names, "tyler_approved", c.humanApproved)
    && Tells(names, "informational", c.informational == Some(true))
  }

  predicate TellsBody(c: Context, names: seq<string>) {
    && Tells(names, "human_edited", c.humanEdited == Some(true))
    && Tells(names, "short_body", c.shortBody == Some(true))
  }

  predicate TellsContent(c: Context, names: seq<string>) {
    && Tells(names, "has_attachment", c.attachmentCount > 0)
    && Tells(names, "sensitive_attachment", c.sensitiveAttachment)
  }

  predicate TellsClaims(c: Context, names: seq<string>) {
    && Tells(names, "has_pii", c.hasPii == Some(true))
    && Tells(names, "uncited_claims", c.uncitedClaims == Some(true))
  }

  predicate TellsStakes(c: Context, names: seq<string>) {
    && Tells(names, "financial_content", c.financialContent == Some(true))
    && Tells(names, "legal_content", c.legalContent == Some(true))
    && Tells(names, "commitment_language", c.commitmentLanguage == Some(true))
  }

  predicate TellsRecipients(c: Context, names: seq<string>) {
    && Tells(names, "unknown_domain", c.unknownDomain == Some(true))
    && Tells(names, "bulk_send", c.recipientCount >= 6)
    && Tells(names, "has_bcc", c.hasBcc)
  }

  predicate TellsNoOperation(names: seq<string>) {
    && "read_only" !in names
    && "move_to_folder" !in names
    && "delete_message" !in names
  }

  predicate TellsNoClaim(names: seq<string>) {
    && "agent_drafted" !in names
    && "authorized_campaign" !in names
    && "unauthorized_outreach" !in names
  }

  /** Each fact of the send, by the one key that tells it. */
  predicate TellsFacts(c: Context, names: seq<string>) {
    && TellsRelationship(c, names) && TellsDomains(c, names) && TellsDomainTrust(c, names) && TellsDomainClasses(c, names)
    && TellsIntent(c, names) && TellsBody(c, names) && TellsContent(c, names) && TellsClaims(c, names)
    && TellsStakes(c, names) && TellsRecipients(c, names) && TellsNoOperation(names) && TellsNoClaim(names)
  }

  lemma KeyTells(c: Context, a: Attr, key: string, fact: bool)
    requires key == Name(a) && (Shows(c, a) <==> fact)
    ensures Tells(Names(Derived(c)), key, fact)
  {
    DerivedMembers(c);
    NamesMembers(Derived(c));
    OneKey(key);
  }

  lemma RelationshipTold(c: Context)
    ensures TellsRelationship(c, Names(Derived(c)))
  {
    KeyTells(c, ReplyToThread, "reply_to_thread", c.isReply);
    KeyTells(c, KnownContact, "known_contact", c.knownContact == Some(true));
    KeyTells(c, FrequentContact, "frequent_contact", c.frequentContact == Some(true));
    KeyTells(c, ColdEmail, "cold_email", c.coldEmail == Some(true));
  }

  lemma DomainsTold(c: Context)
    ensures TellsDomains(c, Names(Derived(c)))
  {
    KeyTells(c, InternalDomain, "internal_domain", AllRecipientsInternal(c));
  }

  lemma DomainTrustTold(c: Context)
    ensures TellsDomainTrust(c, Names(Derived(c)))
  {
    KeyTells(c, TrustedDomain, "trusted_domain", AnyTrustedDomain(c));
    KeyTells(c, GovDomain, "gov_domain", AnyRecipientDomain(c, c.gov));
  }

  lemma DomainClassesTold(c: Context)
    ensures TellsDomainClasses(c, Names(Derived(c)))
  {
    KeyTells(c, FreemailDomain, "freemail_domain", AnyRecipientDomain(c, c.freemail));
    KeyTells(c, DisposableDomain, "disposable_domain", AnyRecipientDomain(c, c.disposable));
  }

  lemma IntentTold(c: Context)
    ensures TellsIntent(c, Names(Derived(c)))
  {
    KeyTells(c, DraftOnly, "draft_only", c.draftOnly);
    KeyTells(c, TylerApproved, "tyler_approved", c.humanApproved);
    KeyTells(c, Informational, "informational", c.informational == Some(true));
  }

  lemma BodyTold(c: Context)
    ensures TellsBody(c, Names(Derived(c)))
  {
    KeyTells(c, HumanEdited, "human_edited", c.humanEdited == Some(true));
    KeyTells(c, ShortBody, "short_body", c.shortBody == Some(true));
  }

  lemma ContentTold(c: Context)
    ensures TellsContent(c, Names(Derived(c)))
  {
    KeyTells(c, HasAttachment, "has_attachment", c.attachmentCount > 0);
    KeyTells(c, SensitiveAttachment, "sensitive_attachment", c.sensitiveAttachment);
  }

  lemma ClaimsTold(c: Context)
    ensures TellsClaims(c, Names(Derived(c)))
  {
    KeyTells(c, HasPii, "has_pii", c.hasPii == Some(true));
    KeyTells(c, UncitedClaims, "uncited_claims", c.uncitedClaims == Some(true));
  }

  lemma StakesTold(c: Context)
    ensures TellsStakes(c, Names(Derived(c)))
  {
    KeyTells(c, FinancialContent, "financial_content", c.financialContent == Some(true));
    KeyTells(c, LegalContent, "legal_content", c.legalContent == Some(true));
    KeyTells(c, CommitmentLanguage, "commitment_language", c.commitmentLanguage == Some(true));
  }

  lemma RecipientsTold(c: Context)
    ensures TellsRecipients(c, Names(Derived(c)))
  {
    KeyTells(c, UnknownDomain, "unknown_domain", c.unknownDomain == Some(true));
    KeyTells(c, BulkSend, "bulk_send", c.recipientCount >= 6);
    KeyTells(c, HasBcc, "has_bcc", c.hasBcc);
  }

  lemma NoOperationTold(c: Context)
    ensures TellsNoOperation(Names(Derived(c)))
  {
    KeyTells(c, ReadOnly, "read_only", false);
    KeyTells(c, MoveToFolder, "move_to_folder", false);
    KeyTells(c, DeleteMessage, "delete_message", false);
  }

  lemma NoClaimTold(c: Context)
    ensures TellsNoClaim(Names(Derived(c)))
  {
    KeyTells(c, AgentDrafted, "agent_drafted", false);
    KeyTells(c, AuthorizedCampaign, "authorized_campaign", false);
    KeyTells(c, UnauthorizedOutreach, "unauthorized_outreach", false);
  }

  lemma DerivedTells(c: Context)
    ensures TellsFacts(c, Names(Derived(c)))
  {
    RelationshipTold(c);
    DomainsTold(c);
    DomainTrustTold(c);
    DomainClassesTold(c);
    IntentTold(c);
    BodyTold(c);
    ContentTold(c);
    ClaimsTold(c);
    StakesTold(c);
    RecipientsTold(c);
    NoOperationTold(c);
    NoClaimTold(c);
  }

  /** The lists agree on every key but this one. */
  ghost predicate SameBut(attrs: seq<Attr>, more: seq<Attr>, key: Attr) {
    forall a :: a != key ==> (a in attrs <==> a in more)
  }

  lemma SameShows(c: Context, d: Context, key: Attr)
    requires forall a :: a != key ==> (Shows(c, a) <==> Shows(d, a))
    ensures SameBut(Derived(c), Derived(d), key)
  {
    DerivedMembers(c);
    DerivedMembers(d);
  }

  /** Two sends that differ in one fact alone get lists that differ in its one key alone: facts
      about the relationship, then the domains, the intent, the content and the recipients. */
  lemma OneRelationshipFact(c: Context, d: Context)
    ensures d == c.(isReply := d.isReply) ==> SameBut(Derived(c), Derived(d), ReplyToThread)
    ensures d == c.(coldEmail := d.coldEmail) ==> SameBut(Derived(c), Derived(d), ColdEmail)
  {
    if d == c.(isReply := d.isReply) {
      SameShows(c, d, ReplyToThread);
    }
    if d == c.(coldEmail := d.coldEmail) {
      SameShows(c, d, ColdEmail);
    }
  }

  lemma OneContactFact(c: Context, d: Context)
    ensures d == c.(knownContact := d.knownContact) ==> SameBut(Derived(c), Derived(d), KnownContact)
    ensures d == c.(frequentContact := d.frequentContact) ==> SameBut(Derived(c), Derived(d), FrequentContact)
  {
    if d == c.(knownContact := d.knownContact) {
      SameShows(c, d, KnownContact);
    }
    if d == c.(frequentContact := d.frequentContact) {
      SameShows(c, d, FrequentContact);
    }
  }

  lemma OneDomainFact(c: Context, d: Context)
    ensures d == c.(trustedDomains := d.trustedDomains) ==> SameBut(Derived(c), Derived(d), TrustedDomain)
    ensures d == c.(unknownDomain := d.unknownDomain) ==> SameBut(Derived(c), Derived(d), UnknownDomain)
  {
    if d == c.(trustedDomains := d.trustedDomains) {
      SameShows(c, d, TrustedDomain);
    }
    if d == c.(unknownDomain := d.unknownDomain) {
      SameShows(c, d, UnknownDomain);
    }
  }

  lemma OnePlaceFact(c: Context, d: Context)
    ensures d == c.(accountDomain := d.accountDomain) ==> SameBut(Derived(c), Derived(d), InternalDomain)
    ensures d == c.(gov := d.gov) ==> SameBut(Derived(c), Derived(d), GovDomain)
  {
    if d == c.(accountDomain := d.accountDomain) {
      SameShows(c, d, InternalDomain);
    }
    if d == c.(gov := d.gov) {
      SameShows(c, d, GovDomain);
    }
  }

  lemma OneDomainClass(c: Context, d: Context)
    ensures d == c.(freemail := d.freemail) ==> SameBut(Derived(c), Derived(d), FreemailDomain)
    ensures d == c.(disposable := d.disposable) ==> SameBut(Derived(c), Derived(d), DisposableDomain)
  {
    if d == c.(freemail := d.freemail) {
      SameShows(c, d, FreemailDomain);
    }
    if d == c.(disposable := d.disposable) {
      SameShows(c, d, DisposableDomain);
    }
  }

  lemma OneIntentFact(c: Context, d: Context)
    ensures d == c.(draftOnly := d.draftOnly) ==> SameBut(Derived(c), Derived(d), DraftOnly)
    ensures d == c.(humanApproved := d.humanApproved) ==> SameBut(Derived(c), Derived(d), TylerApproved)
    ensures d == c.(informational := d.informational) ==> SameBut(Derived(c), Derived(d), Informational)
  {
    if d == c.(draftOnly := d.draftOnly) {
      SameShows(c, d, DraftOnly);
    }
    if d == c.(humanApproved := d.humanApproved) {
      SameShows(c, d, TylerApproved);
    }
    if d == c.(informational := d.informational) {
      SameShows(c, d, Informational);
    }
  }

  lemma OneBodyFact(c: Context, d: Context)
    ensures d == c.(humanEdited := d.humanEdited) ==> SameBut(Derived(c), Derived(d), HumanEdited)
    ensures d == c.(shortBody := d.shortBody) ==> SameBut(Derived(c), Derived(d), ShortBody)
  {
    if d == c.(humanEdited := d.humanEdited) {
      SameShows(c, d, HumanEdited);
    }
    if d == c.(shortBody := d.shortBody) {
      SameShows(c, d, ShortBody);
    }
  }

  lemma OneClaimFact(c: Context, d: Context)
    ensures d == c.(hasPii := d.hasPii) ==> SameBut(Derived(c), Derived(d), HasPii)
    ensures d == c.(uncitedClaims := d.uncitedClaims) ==> SameBut(Derived(c), Derived(d), UncitedClaims)
  {
    if d == c.(hasPii := d.hasPii) {
      SameShows(c, d, HasPii);
    }
    if d == c.(uncitedClaims := d.uncitedClaims) {
      SameShows(c, d, UncitedClaims);
    }
  }

  lemma OneStakesFact(c: Context, d: Context)
    ensures d == c.(financialContent := d.financialContent) ==> SameBut(Derived(c), Derived(d), FinancialContent)
    ensures d == c.(legalContent := d.legalContent) ==> SameBut(Derived(c), Derived(d), LegalContent)
    ensures d == c.(commitmentLanguage := d.commitmentLanguage) ==> SameBut(Derived(c), Derived(d), CommitmentLanguage)
  {
    if d == c.(financialContent := d.financialContent) {
      SameShows(c, d, FinancialContent);
    }
    if d == c.(legalContent := d.legalContent) {
      SameShows(c, d, LegalContent);
    }
    if d == c.(commitmentLanguage := d.commitmentLanguage) {
      SameShows(c, d, CommitmentLanguage);
    }
  }

  lemma OneAttachmentFact(c: Context, d: Context)
    ensures d == c.(attachmentCount := d.attachmentCount) ==> SameBut(Derived(c), Derived(d), HasAttachment)
    ensures d == c.(sensitiveAttachment := d.sensitiveAttachment) ==> SameBut(Derived(c), Derived(d), SensitiveAttachment)
  {
    if d == c.(attachmentCount := d.attachmentCount) {
      SameShows(c, d, HasAttachment);
    }
    if d == c.(sensitiveAttachment := d.sensitiveAttachment) {
      SameShows(c, d, SensitiveAttachment);
    }
  }

  lemma OneRecipientFact(c: Context, d: Context)
    ensures d == c.(recipientCount := d.recipientCount) ==> SameBut(Derived(c), Derived(d), BulkSend)
    ensures d == c.(hasBcc := d.hasBcc) ==> SameBut(Derived(c), Derived(d), HasBcc)
  {
    if d == c.(recipientCount := d.recipientCount) {
      SameShows(c, d, BulkSend);
    }
    if d == c.(hasBcc := d.hasBcc) {
      SameShows(c, d, HasBcc);
    }
  }

  /** The keys are those at these positions of the order. */
  ghost predicate TakenAt(attrs: seq<Attr>, at: seq<nat>, order: seq<Attr>) {
    && |at| == |attrs|
    && (forall j, k :: 0 <= j < k < |at| ==> at[j] < at[k])
    && (forall k :: 0 <= k < |at| ==> at[k] < |order| && attrs[k] == order[at[k]])
  }

  lemma TakenNext(attrs: seq<Attr>, at: seq<nat>, order: seq<Attr>, a: Attr)
    requires TakenAt(attrs, at, order)
    ensures TakenAt(attrs, at, order + [a]) && TakenAt(attrs + [a], at + [|order|], order + [a])
  {
  }

  lemma {:induction false} KeptInOrder(order: seq<Attr>, f: Attr -> Option<Attr>) returns (at: seq<nat>)
    requires forall a :: f(a).Some? ==> f(a).value == a
    ensures TakenAt(Collect(order, f), at, order)
  {
    if order == [] {
      at := [];
    } else {
      var n := |order| - 1;
      var before := KeptInOrder(order[..n], f);
      TakenNext(Collect(order[..n], f), before, order[..n], order[n]);
      assert order == order[..n] + [order[n]];
      at := if f(order[n]).Some? then before + [n] else before;
    }
  }

  /** The pushes, one key after the other. */
  method ToGovernorAttrs(c: Context) returns (attrs: seq<Attr>)
    ensures attrs == Derived(c)
    ensures TellsFacts(c, Names(attrs)) && Distinct(attrs)
    ensures exists at :: TakenAt(attrs, at, [
      ReplyToThread, KnownContact, FrequentContact, ColdEmail, InternalDomain, TrustedDomain, UnknownDomain,
      FreemailDomain, DisposableDomain, GovDomain, DraftOnly, TylerApproved, Informational, HumanEdited, ShortBody,
      HasAttachment, SensitiveAttachment, HasPii, UncitedClaims, FinancialContent, LegalContent, CommitmentLanguage,
      BulkSend, HasBcc])
  {
    ghost var at := KeptInOrder(LISTED, ShownOf(c));
    DerivedMembers(c);
    DerivedTells(c);
    attrs := [];
    for k := 0 to |LISTED|
      invariant attrs == Collect(LISTED[..k], ShownOf(c))
    {
      attrs := PushIf(attrs, k, c);
    }
    assert LISTED[..|LISTED|] == LISTED;
  }

  method PushIf(attrs: seq<Attr>, k: nat, c: Context) returns (more: seq<Attr>)
    requires k < |LISTED| && attrs == Collect(LISTED[..k], ShownOf(c))
    ensures more == Collect(LISTED[..k + 1], ShownOf(c))
  {
    assert LISTED[..k + 1][..k] == LISTED[..k];
    more := if Shows(c, LISTED[k]) then attrs + [LISTED[k]] else attrs;
  }

  function ObserveHostKey(c: Context, a: Attr): Option<bool> {
    match a
    case ReplyToThread => Some(c.isReply)
    case HasAttachment => Some(c.attachmentCount > 0)
    case SensitiveAttachment => Some(c.sensitiveAttachment)
    case HasBcc => Some(c.hasBcc)
    case BulkSend => Some(c.recipientCount >= 6)
    case DraftOnly => Some(c.draftOnly)
    case ReadOnly | MoveToFolder | DeleteMessage => Some(false)
    case InternalDomain =>
      if c.accountDomain.Some? && c.recipientDomains != [] then Some(AllRecipientsInternal(c)) else None
    case TrustedDomain => if c.recipientDomains != [] then Some(AnyTrustedDomain(c)) else None
    case FreemailDomain => if c.recipientDomains != [] then Some(AnyRecipientDomain(c, c.freemail)) else None
    case DisposableDomain => if c.recipientDomains != [] then Some(AnyRecipientDomain(c, c.disposable)) else None
    case GovDomain => if c.recipientDomains != [] then Some(AnyRecipientDomain(c, c.gov)) else None
    case KnownContact => c.knownContact
    case FrequentContact => c.frequentContact
    case UnknownDomain => c.unknownDomain
    case ColdEmail => if c.isReply then Some(false) else c.coldEmail
    case HumanEdited => c.humanEdited
    case ShortBody => c.shortBody
    case _ => None
  }

  /** The fact behind a host key was not looked up, or there is none. */
  predicate Unobserved(c: Context, a: Attr) {
    || (a == KnownContact && c.knownContact == None)
    || (a == FrequentContact && c.frequentContact == None)
    || (a == UnknownDomain && c.unknownDomain == None)
    || (a == ColdEmail && !c.isReply && c.coldEmail == None)
    || (a == HumanEdited && c.humanEdited == None)
    || (a == ShortBody && c.shortBody == None)
    || (a == InternalDomain && (c.accountDomain == None || c.recipientDomains == []))
    || ((a == TrustedDomain || a == FreemailDomain || a == DisposableDomain || a == GovDomain) && c.recipientDomains == [])
    || a == UnauthorizedOutreach
  }

  /** What the host observes, it also derives: a corroborated key adds nothing. The one key
      derived though the host observes its absence is cold_email on a reply. */
  lemma ObservedIsDerived(c: Context, a: Attr)
    ensures ObserveHostKey(c, a) == Some(true) <==>
      ProvenanceOf(a) == HostDerived && Shows(c, a) && !(a == ColdEmail && c.isReply)
    ensures ObserveHostKey(c, a) == None <==> ProvenanceOf(a) != HostDerived || Unobserved(c, a)
    ensures ObserveHostKey(c, a) == Some(true) ==> Shows(c, a)
    ensures ObserveHostKey(c, a) == Some(false) && Shows(c, a) <==> a == ColdEmail && c.isReply && Yes(c.coldEmail)
  {
  }

  // ---- what a resolution should be ----------------------------------------------

  /** The trimmed declared keys, blanks ignored. */
  function Tokens(declared: seq<string>): set<string> {
    set s | s in declared && Trim(s) != "" :: Trim(s)
  }

  /** The host lets a bot declare the key about this send. */
  predicate Admits(c: Context, a: Attr) {
    match ProvenanceOf(a)
    case Declarable => true
    case HostDerived => ObserveHostKey(c, a) == Some(true)
    case RequiresAttestation => false
  }

  predicate Declares(tokens: set<string>, a: Attr) {
    Name(a) in tokens
  }

  /** The key is derived, or declared and admitted. */
  predicate InUnion(c: Context, tokens: set<string>, a: Attr) {
    Shows(c, a) || (Admits(c, a) && Declares(tokens, a))
  }

  ghost predicate Clashes(c: Context, tokens: set<string>, a: Attr) {
    exists b :: Exclusive(a, b) && InUnion(c, tokens, b)
  }

  datatype Code =
    | UnknownAttribute | AttestationRequired | ConflictsWithHostObservation | HostVerificationUnavailable
    | ConflictingAttributes

  /** Why a token is refused before any key is compared with another. */
  function Refusal(c: Context, token: string): Option<Code> {
    match CatalogKey(token)
    case None => Some(UnknownAttribute)
    case Some(a) =>
      match ProvenanceOf(a)
      case RequiresAttestation => Some(AttestationRequired)
      case Declarable => None
      case HostDerived =>
        match ObserveHostKey(c, a)
        case Some(true) => None
        case Some(false) => Some(ConflictsWithHostObservation)
        case None => Some(HostVerificationUnavailable)
  }

  ghost function Verdict(c: Context, tokens: set<string>, token: string): Option<Code> {
    if Refusal(c, token).Some? then Refusal(c, token)
    else if Clashes(c, tokens, CatalogKey(token).value) then Some(ConflictingAttributes)
    else None
  }

  lemma RefusalMeansNotAdmitted(c: Context, token: string)
    ensures Refusal(c, token).None? <==> CatalogKey(token).Some? && Admits(c, CatalogKey(token).value)
  {
  }

  /** Every clash involves a host key: the declarable keys are in no pair. */
  lemma OnlyHostKeysClash(a: Attr, b: Attr)
    requires Exclusive(a, b)
    ensures ProvenanceOf(a) == HostDerived == ProvenanceOf(b)
  {
  }

  lemma DeclarableNeverClashes(a: Attr)
    requires ProvenanceOf(a) == Declarable
    ensures forall b :: !Exclusive(a, b)
  {
  }

  datatype State = Attributed | Unattributed | Invalid

  /** Any refusal fails the whole request; host facts do not stand in for a declaration. */
  ghost function StateOf(c: Context, tokens: set<string>, requireDeclaration: bool): State {
    if exists t :: t in tokens && Verdict(c, tokens, t).Some? then Invalid
    else if (requireDeclaration && tokens == {}) || !exists a :: InUnion(c, tokens, a) then Unattributed
    else Attributed
  }

  // ---- resolving -------------------------------------------------------------------

  datatype Rejection = Rejection(token: string, code: Code)

  datatype Resolution = Resolution(declared: seq<string>, derived: seq<Attr>, governor: seq<string>,
    rejected: seq<Rejection>, redundant: seq<Attr>, state: State)

  function Collect<S, T>(xs: seq<S>, f: S -> Option<T>): seq<T> {
    if xs == [] then []
    else Collect(xs[..|xs| - 1], f) + match f(xs[|xs| - 1]) { case Some(y) => [y] case None => [] }
  }

  lemma {:induction false} CollectMembers<S(!new), T(!new)>(xs: seq<S>, f: S -> Option<T>)
    ensures forall y :: y in Collect(xs, f) <==> exists x :: x in xs && f(x) == Some(y)
  {
    if xs == [] {
    } else {
      var n := |xs| - 1;
      CollectMembers(xs[..n], f);
      assert xs == xs[..n] + [xs[n]];
      forall y ensures y in Collect(xs, f) <==> exists x :: x in xs && f(x) == Some(y) {
        assert y in Collect(xs, f) <==> y in Collect(xs[..n], f) || f(xs[n]) == Some(y);
        if x :| x in xs && f(x) == Some(y) {
          assert x in xs[..n] || x == xs[n];
        }
      }
    }
  }

  lemma {:induction false} CollectDistinct<S(!new), T(!new)>(xs: seq<S>, f: S -> Option<T>)
    requires Distinct(xs) && forall x, y :: x in xs && y in xs && f(x).Some? && f(x) == f(y) ==> x == y
    ensures Distinct(Collect(xs, f))
  {
    if xs == [] {
    } else {
      var n := |xs| - 1;
      CollectDistinct(xs[..n], f);
      CollectMembers(xs[..n], f);
      var rest := Collect(xs[..n], f);
      forall i | 0 <= i < |rest| ensures f(xs[n]) != Some(rest[i]) {
        assert rest[i] in rest;
        var x :| x in xs[..n] && f(x) == Some(rest[i]);
        var j :| 0 <= j < n && xs[..n][j] == x;
        assert xs[j] != xs[n];
      }
    }
  }

  lemma TokensGrow(declared: seq<string>, last: string)
    ensures Tokens(declared + [last]) == Tokens(declared) + if Trim(last) == "" then {} else {Trim(last)}
  {
  }

  /** s lists the set, each element once. */
  ghost predicate Lists<T(!new)>(s: seq<T>, elements: set<T>) {
    Distinct(s) && elements == set x | x in s
  }

  lemma ListsGrows<T(!new)>(s: seq<T>, elements: set<T>, x: T)
    requires Lists(s, elements) && x !in elements
    ensures Lists(s + [x], elements + {x})
  {
  }

  /** The trimmed declared keys in the order they are first seen. */
  function Firsts(declared: seq<string>): seq<string> {
    if declared == [] then []
    else
      var n := |declared| - 1;
      AddFirst(Firsts(declared[..n]), Trim(declared[n]))
  }

  function AddFirst(before: seq<string>, k: string): seq<string> {
    if k == "" || k in before then before else before + [k]
  }

  lemma FirstsGrow(before: seq<string>, tokens: set<string>, k: string)
    requires Lists(before, tokens)
    ensures Lists(AddFirst(before, k), tokens + if k == "" then {} else {k})
  {
    if k == "" || k in before {
      assert tokens + (if k == "" then {} else {k}) == tokens;
    } else {
      ListsGrows(before, tokens, k);
    }
  }

  lemma {:induction false} FirstsListTokens(declared: seq<string>)
    ensures Lists(Firsts(declared), Tokens(declared))
  {
    if declared == [] {
    } else {
      var n := |declared| - 1;
      var k := Trim(declared[n]);
      FirstsListTokens(declared[..n]);
      assert declared == declared[..n] + [declared[n]];
      TokensGrow(declared[..n], declared[n]);
      FirstsGrow(Firsts(declared[..n]), Tokens(declared[..n]), k);
    }
  }

  function Trims(declared: seq<string>): (keys: seq<string>)
    ensures |keys| == |declared| && forall i :: 0 <= i < |keys| ==> keys[i] == Trim(declared[i])
  {
    seq(|declared|, i requires 0 <= i < |declared| => Trim(declared[i]))
  }

  ghost predicate MetFirst(keys: seq<string>, i: nat, key: string) {
    i < |keys| && keys[i] == key && forall j :: 0 <= j < i ==> keys[j] != key
  }

  /** The keys that are not blank, each at the place where it is met first, in that order. */
  ghost predicate FirstMetAt(unique: seq<string>, at: seq<nat>, keys: seq<string>) {
    && |at| == |unique|
    && (forall j, k :: 0 <= j < k < |at| ==> at[j] < at[k])
    && (forall k :: 0 <= k < |at| ==> unique[k] != "" && MetFirst(keys, at[k], unique[k]))
    && (forall key :: key in keys && key != "" ==> key in unique)
  }

  lemma FirstMetNext(unique: seq<string>, at: seq<nat>, keys: seq<string>, key: string)
    requires FirstMetAt(unique, at, keys)
    ensures if key == "" || key in unique then FirstMetAt(unique, at, keys + [key])
            else FirstMetAt(unique + [key], at + [|keys|], keys + [key])
  {
    forall k | 0 <= k < |at| ensures MetFirst(keys + [key], at[k], unique[k]) {
      assert MetFirst(keys, at[k], unique[k]);
    }
    if key != "" && key !in unique {
      assert key !in keys;
      assert MetFirst(keys + [key], |keys|, key);
    }
  }

  lemma FirstMetStep(unique: seq<string>, at: seq<nat>, keys: seq<string>, key: string) returns (places: seq<nat>)
    requires FirstMetAt(unique, at, keys)
    ensures FirstMetAt(AddFirst(unique, key), places, keys + [key])
  {
    FirstMetNext(unique, at, keys, key);
    places := if key == "" || key in unique then at else at + [|keys|];
  }

  lemma TrimsNext(declared: seq<string>)
    requires declared != []
    ensures var n := |declared| - 1; Trims(declared) == Trims(declared[..n]) + [Trim(declared[n])]
  {
  }

  lemma {:induction false} FirstsMetFirst(declared: seq<string>) returns (at: seq<nat>)
    ensures FirstMetAt(Firsts(declared), at, Trims(declared))
  {
    if declared == [] {
      at := [];
    } else {
      var n := |declared| - 1;
      at := FirstsMetFirst(declared[..n]);
      at := FirstMetStep(Firsts(declared[..n]), at, Trims(declared[..n]), Trim(declared[n]));
      TrimsNext(declared);
    }
  }

  method Dedupe(declared: seq<string>) returns (unique: seq<string>)
    ensures unique == Firsts(declared)
    ensures exists at :: FirstMetAt(unique, at, Trims(declared))
  {
    unique := [];
    for i := 0 to |declared|
      invariant unique == Firsts(declared[..i])
    {
      assert declared[..i + 1][..i] == declared[..i];
      var k := Trim(declared[i]);
      if k != "" && k !in unique {
        unique := unique + [k];
      }
    }
    assert declared[..|declared|] == declared;
    ghost var at := FirstsMetFirst(declared);
  }

  function AcceptedOf(c: Context, p: Provenance): string -> Option<Attr> {
    token => if Refusal(c, token).None? && ProvenanceOf(CatalogKey(token).value) == p then CatalogKey(token) else None
  }

  function RefusalOf(c: Context): string -> Option<Rejection> {
    token => match Refusal(c, token) case Some(code) => Some(Rejection(token, code)) case None => None
  }

  method Classify(unique: seq<string>, c: Context)
    returns (declarable: seq<Attr>, redundant: seq<Attr>, rejected: seq<Rejection>)
    ensures declarable == Collect(unique, AcceptedOf(c, Declarable))
    ensures redundant == Collect(unique, AcceptedOf(c, HostDerived))
    ensures rejected == Collect(unique, RefusalOf(c))
  {
    declarable, redundant, rejected := [], [], [];
    for i := 0 to |unique|
      invariant declarable == Collect(unique[..i], AcceptedOf(c, Declarable))
      invariant redundant == Collect(unique[..i], AcceptedOf(c, HostDerived))
      invariant rejected == Collect(unique[..i], RefusalOf(c))
    {
      var key := unique[i];
      assert unique[..i + 1][..i] == unique[..i];
      match CatalogKey(key) {
        case None => rejected := rejected + [Rejection(key, UnknownAttribute)];
        case Some(a) =>
          match ProvenanceOf(a) {
            case RequiresAttestation => rejected := rejected + [Rejection(key, AttestationRequired)];
            case Declarable => declarable := declarable + [a];
            case HostDerived =>
              match ObserveHostKey(c, a) {
                case Some(true) => redundant := redundant + [a];
                case Some(false) => rejected := rejected + [Rejection(key, ConflictsWithHostObservation)];
                case None => rejected := rejected + [Rejection(key, HostVerificationUnavailable)];
              }
          }
      }
    }
    assert unique[..|unique|] == unique;
  }

  /** Appends what is not there yet. */
  method Extend(base: seq<Attr>, more: seq<Attr>) returns (union: seq<Attr>)
    requires Distinct(base)
    ensures Distinct(union) && forall a :: a in union <==> a in base || a in more
  {
    union := base;
    for i := 0 to |more|
      invariant Distinct(union) && forall a :: a in union <==> a in base || a in more[..i]
    {
      assert more[..i + 1] == more[..i] + [more[i]];
      if more[i] !in union {
        union := union + [more[i]];
      }
    }
    assert more[..|more|] == more;
  }

  function ConflictOf(union: seq<Attr>): Attr -> Option<Rejection> {
    a => if ConflictingPartner(a, union).Some? then Some(Rejection(Name(a), ConflictingAttributes)) else None
  }

  function Unconflicted(union: seq<Attr>): Attr -> Option<Attr> {
    a => if ConflictingPartner(a, union).Some? then None else Some(a)
  }

  method FindConflicts(accepted: seq<Attr>, union: seq<Attr>) returns (conflicts: seq<Rejection>)
    ensures conflicts == Collect(accepted, ConflictOf(union))
  {
    conflicts := [];
    for i := 0 to |accepted|
      invariant conflicts == Collect(accepted[..i], ConflictOf(union))
    {
      assert accepted[..i + 1][..i] == accepted[..i];
      if ConflictingPartner(accepted[i], union).Some? {
        conflicts := conflicts + [Rejection(Name(accepted[i]), ConflictingAttributes)];
      }
    }
    assert accepted[..|accepted|] == accepted;
  }

  lemma AcceptedMembers(unique: seq<string>, tokens: set<string>, c: Context, p: Provenance)
    requires Lists(unique, tokens)
    ensures var accepted := Collect(unique, AcceptedOf(c, p));
      Distinct(accepted) && forall a :: a in accepted <==> Declares(tokens, a) && Admits(c, a) && ProvenanceOf(a) == p
  {
    var f := AcceptedOf(c, p);
    CollectMembers(unique, f);
    forall t, u | t in unique && u in unique && f(t).Some? && f(t) == f(u) ensures t == u {
      assert Name(f(t).value) == t && Name(f(u).value) == u;
    }
    CollectDistinct(unique, f);
    forall a ensures a in Collect(unique, f) <==> Declares(tokens, a) && Admits(c, a) && ProvenanceOf(a) == p {
      CatalogKeyOfName(a);
      RefusalMeansNotAdmitted(c, Name(a));
      assert f(Name(a)) == Some(a) <==> Admits(c, a) && ProvenanceOf(a) == p;
      if a in Collect(unique, f) {
        var t :| t in unique && f(t) == Some(a);
        assert t == Name(a);
      }
    }
  }

  lemma RefusedMembers(unique: seq<string>, tokens: set<string>, c: Context)
    requires Lists(unique, tokens)
    ensures var refused := Collect(unique, RefusalOf(c));
      Distinct(refused) && forall x :: x in refused <==> x.token in tokens && Refusal(c, x.token) == Some(x.code)
  {
    var f := RefusalOf(c);
    CollectMembers(unique, f);
    CollectDistinct(unique, f);
    forall x: Rejection ensures x in Collect(unique, f) <==> x.token in tokens && Refusal(c, x.token) == Some(x.code) {
      assert f(x.token) == Some(x) <==> Refusal(c, x.token) == Some(x.code);
    }
  }

  lemma ConflictMembers(accepted: seq<Attr>, union: seq<Attr>, c: Context, tokens: set<string>)
    requires Distinct(accepted) && forall a :: a in accepted <==> Declares(tokens, a) && Admits(c, a)
    requires forall a :: a in union <==> InUnion(c, tokens, a)
    ensures var conflicts := Collect(accepted, ConflictOf(union));
      && Distinct(conflicts)
      && forall x :: x in conflicts <==>
           x.token in tokens && Refusal(c, x.token).None? && Verdict(c, tokens, x.token) == Some(x.code)
  {
    var f := ConflictOf(union);
    CollectMembers(accepted, f);
    forall a, b | a in accepted && b in accepted && f(a).Some? && f(a) == f(b) ensures a == b {
      CatalogKeyOfName(a);
      CatalogKeyOfName(b);
    }
    CollectDistinct(accepted, f);
    forall x: Rejection ensures x in Collect(accepted, f) <==>
      x.token in tokens && Refusal(c, x.token).None? && Verdict(c, tokens, x.token) == Some(x.code)
    {
      RefusalMeansNotAdmitted(c, x.token);
      if x in Collect(accepted, f) {
        var a :| a in accepted && f(a) == Some(x);
        CatalogKeyOfName(a);
        ClashesAmong(a, union, c, tokens);
      }
      if x.token in tokens && Refusal(c, x.token).None? && Verdict(c, tokens, x.token) == Some(x.code) {
        var a := CatalogKey(x.token).value;
        ClashesAmong(a, union, c, tokens);
        assert a in accepted && f(a) == Some(x);
      }
    }
  }

  lemma ClashesAmong(a: Attr, union: seq<Attr>, c: Context, tokens: set<string>)
    requires forall b :: b in union <==> InUnion(c, tokens, b)
    ensures ConflictingPartner(a, union).Some? <==> Clashes(c, tokens, a)
  {
  }

  /** The names of the union in order when attributed, and otherwise nothing. */
  ghost predicate Submits(governor: seq<string>, c: Context, tokens: set<string>, requireDeclaration: bool) {
    && StrictlySorted(governor)
    && forall s :: s in governor <==>
         StateOf(c, tokens, requireDeclaration) == Attributed && exists a :: InUnion(c, tokens, a) && s == Name(a)
  }

  /** Every token is refused, conflicting or accepted: the parts make up the whole. */
  ghost predicate Resolves(r: Resolution, c: Context, tokens: set<string>, requireDeclaration: bool) {
    && Lists(r.declared, tokens)
    && r.derived == Derived(c)
    && Distinct(r.rejected)
    && (forall x :: x in r.rejected <==> x.token in tokens && Verdict(c, tokens, x.token) == Some(x.code))
    && Distinct(r.redundant)
    && (forall a :: a in r.redundant <==>
         Declares(tokens, a) && ProvenanceOf(a) == HostDerived && Verdict(c, tokens, Name(a)).None?)
    && r.state == StateOf(c, tokens, requireDeclaration)
    && Submits(r.governor, c, tokens, requireDeclaration)
  }

  lemma JoinRejections(refused: seq<Rejection>, conflicts: seq<Rejection>, c: Context, tokens: set<string>)
    requires Distinct(refused) && Distinct(conflicts)
    requires forall x :: x in refused <==> x.token in tokens && Refusal(c, x.token) == Some(x.code)
    requires forall x :: x in conflicts <==>
      x.token in tokens && Refusal(c, x.token).None? && Verdict(c, tokens, x.token) == Some(x.code)
    ensures Distinct(refused + conflicts)
    ensures forall x :: x in refused + conflicts <==> x.token in tokens && Verdict(c, tokens, x.token) == Some(x.code)
  {
  }

  lemma RetainedMembers(redundant: seq<Attr>, union: seq<Attr>, c: Context, tokens: set<string>)
    requires Distinct(redundant)
    requires forall a :: a in redundant <==> Declares(tokens, a) && Admits(c, a) && ProvenanceOf(a) == HostDerived
    requires forall a :: a in union <==> InUnion(c, tokens, a)
    ensures var kept := Collect(redundant, Unconflicted(union));
      && Distinct(kept)
      && forall a :: a in kept <==>
           Declares(tokens, a) && ProvenanceOf(a) == HostDerived && Verdict(c, tokens, Name(a)).None?
  {
    var f := Unconflicted(union);
    CollectMembers(redundant, f);
    CollectDistinct(redundant, f);
    forall a ensures a in Collect(redundant, f) <==>
      Declares(tokens, a) && ProvenanceOf(a) == HostDerived && Verdict(c, tokens, Name(a)).None?
    {
      CatalogKeyOfName(a);
      RefusalMeansNotAdmitted(c, Name(a));
      ClashesAmong(a, union, c, tokens);
      assert f(a) == Some(a) <==> !Clashes(c, tokens, a);
      assert forall b :: f(b) == Some(a) ==> b == a;
    }
  }

  function CodeOf(v: Option<Code>): Code {
    match v case Some(code) => code case None => UnknownAttribute
  }

  /** The state and the sorted set submitted, once the rejections are known. */
  method Settle(rejected: seq<Rejection>, union: seq<Attr>, accepted: seq<Attr>, requireDeclaration: bool,
                ghost c: Context, ghost tokens: set<string>)
    returns (state: State, governor: seq<string>)
    requires forall x :: x in rejected <==> x.token in tokens && Verdict(c, tokens, x.token) == Some(x.code)
    requires forall a :: a in union <==> InUnion(c, tokens, a)
    requires forall a :: a in accepted <==> Declares(tokens, a) && Admits(c, a)
    ensures state == StateOf(c, tokens, requireDeclaration)
    ensures Submits(governor, c, tokens, requireDeclaration)
  {
    if rejected != [] {
      assert rejected[0] in rejected;
      return Invalid, [];
    }
    forall t | t in tokens ensures Verdict(c, tokens, t).None? && CatalogKey(t).Some? && CatalogKey(t).value in accepted {
      var v := Verdict(c, tokens, t);
      assert Rejection(t, CodeOf(v)) !in rejected;
      RefusalMeansNotAdmitted(c, t);
    }
    if accepted != [] {
      assert accepted[0] in accepted;
    }
    if union != [] {
      assert union[0] in union;
    }
    NamesMembers(union);
    if (requireDeclaration && accepted == []) || union == [] {
      return Unattributed, [];
    }
    return Attributed, SortStrings(Names(union));
  }

  method Resolve(declared: seq<string>, c: Context, requireDeclaration: bool) returns (r: Resolution)
    ensures Resolves(r, c, Tokens(declared), requireDeclaration)
    // by name: the facts that hold, what is submitted, what is refused and why, and the state
    ensures TellsFacts(c, Names(r.derived))
    ensures r.state == Attributed ==> forall key ::
      key in r.governor <==> key in Names(r.derived) || (DeclarableKey(key) && Declared(declared, key))
    ensures r.state != Attributed ==> r.governor == []
    ensures forall key, code ::
      Rejection(key, code) in r.rejected <==> Declared(declared, key) && RefusedFor(c, key, AttestedKey(key), code)
    ensures r.state == Invalid <==> r.rejected != []
    ensures r.state == Unattributed <==> r.rejected == [] && r.declared == [] && (requireDeclaration || r.derived == [])
  {
    ghost var tokens := Tokens(declared);
    var derived := ToGovernorAttrs(c);
    DerivedMembers(c);
    var unique := Dedupe(declared);
    FirstsListTokens(declared);
    var declarable, redundant, refused := Classify(unique, c);
    AcceptedMembers(unique, tokens, c, Declarable);
    AcceptedMembers(unique, tokens, c, HostDerived);
    RefusedMembers(unique, tokens, c);
    var accepted := declarable + redundant;
    AcceptedTogether(declarable, redundant, c, tokens);
    var union := Extend(derived, accepted);
    var conflicts := FindConflicts(accepted, union);
    ConflictMembers(accepted, union, c, tokens);
    JoinRejections(refused, conflicts, c, tokens);
    RetainedMembers(redundant, union, c, tokens);
    var state, governor := Settle(refused + conflicts, union, accepted, requireDeclaration, c, tokens);
    r := Resolution(unique, derived, governor, refused + conflicts, Collect(redundant, Unconflicted(union)), state);
    ResolvedByName(r, declared, c, requireDeclaration);
  }

  lemma AcceptedTogether(declarable: seq<Attr>, redundant: seq<Attr>, c: Context, tokens: set<string>)
    requires Distinct(declarable) && Distinct(redundant)
    requires forall a :: a in declarable <==> Declares(tokens, a) && Admits(c, a) && ProvenanceOf(a) == Declarable
    requires forall a :: a in redundant <==> Declares(tokens, a) && Admits(c, a) && ProvenanceOf(a) == HostDerived
    ensures Distinct(declarable + redundant)
    ensures forall a :: a in declarable + redundant <==> Declares(tokens, a) && Admits(c, a)
  {
    var all := declarable + redundant;
    forall i, j | 0 <= i < j < |all| ensures all[i] != all[j] {
      if i < |declarable| <= j {
        assert declarable[i] in declarable && redundant[j - |declarable|] in redundant;
      }
    }
  }

  // ---- the resolution by name ------------------------------------------------------

  /** The keys a bot may declare of its own knowledge. */
  predicate DeclarableKey(key: string) {
    || key == "informational" || key == "financial_content" || key == "legal_content" || key == "commitment_language"
    || key == "has_pii" || key == "uncited_claims" || key == "agent_drafted"
  }

  /** The keys only a human's approval or an operator's signal records. */
  predicate AttestedKey(key: string) {
    key == "tyler_approved" || key == "authorized_campaign"
  }

  lemma DeclarableKeys(a: Attr)
    ensures DeclarableKey(Name(a)) <==> ProvenanceOf(a) == Declarable
  {
    if ProvenanceOf(a) == Declarable {
    } else if DeclarableKey(Name(a)) {
      var b := DeclarableOf(Name(a));
      SameName(a, b);
    }
  }

  lemma DeclarableOf(key: string) returns (a: Attr)
    requires DeclarableKey(key)
    ensures ProvenanceOf(a) == Declarable && Name(a) == key
  {
    a := if key == Name(Informational) then Informational
         else if key == Name(FinancialContent) then FinancialContent
         else if key == Name(LegalContent) then LegalContent
         else if key == Name(CommitmentLanguage) then CommitmentLanguage
         else if key == Name(HasPii) then HasPii
         else if key == Name(UncitedClaims) then UncitedClaims
         else AgentDrafted;
  }

  lemma AttestedKeys(a: Attr)
    ensures AttestedKey(Name(a)) <==> ProvenanceOf(a) == RequiresAttestation
  {
    if ProvenanceOf(a) == RequiresAttestation {
    } else if AttestedKey(Name(a)) {
      var b := AttestedOf(Name(a));
      SameName(a, b);
    }
  }

  lemma AttestedOf(key: string) returns (a: Attr)
    requires AttestedKey(key)
    ensures ProvenanceOf(a) == RequiresAttestation && Name(a) == key
  {
    a := if key == Name(TylerApproved) then TylerApproved else AuthorizedCampaign;
  }

  /** A declared key as the code reads it: trimmed, and not blank. */
  ghost predicate Declared(declared: seq<string>, key: string) {
    exists s :: s in declared && key == Trim(s) && key != ""
  }

  lemma DeclaredAreTokens(declared: seq<string>, key: string)
    ensures Declared(declared, key) <==> key in Tokens(declared)
  {
  }

  lemma UnionByName(c: Context, tokens: set<string>, key: string, declarable: bool)
    requires forall a :: Name(a) == key ==> (declarable <==> ProvenanceOf(a) == Declarable)
    requires declarable ==> exists a :: Name(a) == key
    ensures (exists a :: InUnion(c, tokens, a) && key == Name(a)) <==>
      key in Names(Derived(c)) || (declarable && key in tokens)
  {
    DerivedMembers(c);
    NamesMembers(Derived(c));
    forall a | key == Name(a) ensures InUnion(c, tokens, a) <==> Shows(c, a) || (declarable && key in tokens) {
      ObservedIsDerived(c, a);
    }
  }

  lemma DeclarableByName(key: string)
    ensures forall a :: Name(a) == key ==> (DeclarableKey(key) <==> ProvenanceOf(a) == Declarable)
    ensures DeclarableKey(key) ==> exists a :: Name(a) == key
  {
    forall a | Name(a) == key ensures DeclarableKey(key) <==> ProvenanceOf(a) == Declarable {
      DeclarableKeys(a);
    }
    if DeclarableKey(key) {
      var a := DeclarableOf(key);
    }
  }

  /** What is submitted, by name: the facts of the send that hold, and the keys a bot may
      declare that were declared; of an agent's declarations nothing else is ever added. */
  lemma SubmittedByName(r: Resolution, declared: seq<string>, c: Context, requireDeclaration: bool, key: string)
    requires Resolves(r, c, Tokens(declared), requireDeclaration)
    ensures r.state == Attributed ==>
      (key in r.governor <==> key in Names(r.derived) || (DeclarableKey(key) && Declared(declared, key)))
    ensures r.state != Attributed ==> key !in r.governor
  {
    DeclaredAreTokens(declared, key);
    DeclarableByName(key);
    UnionByName(c, Tokens(declared), key, DeclarableKey(key));
  }

  /** Why a declared key is refused, by what the host observed. */
  ghost predicate RefusedFor(c: Context, key: string, attested: bool, code: Code) {
    match code
    case UnknownAttribute => forall a :: Name(a) != key
    case AttestationRequired => attested
    case ConflictsWithHostObservation => exists a :: HostKey(a, key) && ObserveHostKey(c, a) == Some(false)
    case HostVerificationUnavailable => exists a :: HostKey(a, key) && ObserveHostKey(c, a) == None
    case ConflictingAttributes =>
      exists a, b :: HostKey(a, key) && ObserveHostKey(c, a) == Some(true) && Exclusive(a, b) && Shows(c, b)
  }

  lemma KnownRefused(c: Context, tokens: set<string>, a: Attr, key: string, attested: bool, code: Code)
    requires CatalogKey(key) == Some(a) && (attested <==> ProvenanceOf(a) == RequiresAttestation)
    ensures Verdict(c, tokens, key) == Some(code) <==> RefusedFor(c, key, attested, code)
  {
    HostKeyIs(a, key);
    ClashesAreShown(c, tokens, a);
  }

  lemma UnknownRefused(c: Context, tokens: set<string>, key: string, code: Code)
    requires CatalogKey(key) == None
    ensures Verdict(c, tokens, key) == Some(code) <==> RefusedFor(c, key, false, code)
  {
  }

  lemma AttestedByName(key: string)
    ensures match CatalogKey(key)
      case Some(a) => AttestedKey(key) <==> ProvenanceOf(a) == RequiresAttestation
      case None => !AttestedKey(key)
  {
    match CatalogKey(key) {
      case Some(a) => AttestedKeys(a);
      case None => assert key != Name(TylerApproved) && key != Name(AuthorizedCampaign);
    }
  }

  /** What is refused and with which code, by name. */
  lemma RefusedByName(r: Resolution, declared: seq<string>, c: Context, requireDeclaration: bool, key: string, code: Code)
    requires Resolves(r, c, Tokens(declared), requireDeclaration)
    ensures Rejection(key, code) in r.rejected <==> Declared(declared, key) && RefusedFor(c, key, AttestedKey(key), code)
  {
    var tokens := Tokens(declared);
    DeclaredAreTokens(declared, key);
    AttestedByName(key);
    assert Rejection(key, code) in r.rejected <==> key in tokens && Verdict(c, tokens, key) == Some(code);
    match CatalogKey(key) {
      case None => UnknownRefused(c, tokens, key, code);
      case Some(a) => KnownRefused(c, tokens, a, key, AttestedKey(key), code);
    }
  }

  predicate HostKey(a: Attr, key: string) {
    Name(a) == key && ProvenanceOf(a) == HostDerived
  }

  lemma HostKeyIs(a: Attr, key: string)
    requires Name(a) == key
    ensures forall b :: HostKey(b, key) <==> b == a && ProvenanceOf(a) == HostDerived
  {
    OneKey(key);
  }

  /** Only host keys are in pairs, and what is admitted of them is derived. */
  lemma ClashesAreShown(c: Context, tokens: set<string>, a: Attr)
    ensures Clashes(c, tokens, a) <==> exists b :: Exclusive(a, b) && Shows(c, b)
    ensures Clashes(c, tokens, a) ==> ProvenanceOf(a) == HostDerived
  {
    forall b | Exclusive(a, b) ensures InUnion(c, tokens, b) <==> Shows(c, b) {
      OnlyHostKeysClash(a, b);
      ObservedIsDerived(c, b);
    }
  }

  lemma UnionWithout(c: Context)
    ensures (exists a :: InUnion(c, {}, a)) <==> Derived(c) != []
  {
    DerivedMembers(c);
    NoneIn(Derived(c));
    if Derived(c) != [] {
      assert InUnion(c, {}, Derived(c)[0]);
    }
  }

  lemma NoneRefused(rejected: seq<Rejection>, c: Context, tokens: set<string>)
    requires forall x :: x in rejected <==> x.token in tokens && Verdict(c, tokens, x.token) == Some(x.code)
    ensures rejected == [] <==> forall t :: t in tokens ==> Verdict(c, tokens, t).None?
  {
    NoneIn(rejected);
    if t :| t in tokens && Verdict(c, tokens, t).Some? {
      assert Rejection(t, Verdict(c, tokens, t).value) in rejected;
    }
  }

  lemma AcceptedIsThere(c: Context, tokens: set<string>, t: string)
    requires t in tokens && Verdict(c, tokens, t).None?
    ensures exists a :: InUnion(c, tokens, a)
  {
    RefusalMeansNotAdmitted(c, t);
    assert InUnion(c, tokens, CatalogKey(t).value);
  }

  lemma StateByName(r: Resolution, declared: seq<string>, c: Context, requireDeclaration: bool)
    requires Resolves(r, c, Tokens(declared), requireDeclaration)
    ensures r.state == Invalid <==> r.rejected != []
    ensures r.state == Unattributed <==> r.rejected == [] && r.declared == [] && (requireDeclaration || r.derived == [])
  {
    var tokens := Tokens(declared);
    NoneListed(r.declared, tokens);
    NoneRefused(r.rejected, c, tokens);
    if r.rejected == [] {
      if tokens == {} {
        UnionWithout(c);
      } else {
        var t :| t in tokens;
        AcceptedIsThere(c, tokens, t);
      }
    }
  }

  lemma NoneIn<T>(s: seq<T>)
    ensures s == [] || s[0] in s
  {
  }

  lemma NoneListed<T(!new)>(s: seq<T>, elements: set<T>)
    requires Lists(s, elements)
    ensures s == [] <==> elements == {}
  {
    if s == [] {
      assert elements == {};
    } else {
      assert s[0] in elements;
    }
  }

  lemma ResolvedByName(r: Resolution, declared: seq<string>, c: Context, requireDeclaration: bool)
    requires Resolves(r, c, Tokens(declared), requireDeclaration)
    ensures TellsFacts(c, Names(r.derived))
    ensures r.state == Attributed ==> forall key ::
      key in r.governor <==> key in Names(r.derived) || (DeclarableKey(key) && Declared(declared, key))
    ensures r.state != Attributed ==> r.governor == []
    ensures forall key, code ::
      Rejection(key, code) in r.rejected <==> Declared(declared, key) && RefusedFor(c, key, AttestedKey(key), code)
    ensures r.state == Invalid <==> r.rejected != []
    ensures r.state == Unattributed <==> r.rejected == [] && r.declared == [] && (requireDeclaration || r.derived == [])
  {
    DerivedTells(c);
    StateByName(r, declared, c, requireDeclaration);
    forall key
      ensures r.state == Attributed ==>
        (key in r.governor <==> key in Names(r.derived) || (DeclarableKey(key) && Declared(declared, key)))
      ensures r.state != Attributed ==> key !in r.governor
    {
      SubmittedByName(r, declared, c, requireDeclaration, key);
    }
    NoneIn(r.governor);
    forall key, code
      ensures Rejection(key, code) in r.rejected <==> Declared(declared, key) && RefusedFor(c, key, AttestedKey(key), code)
    {
      RefusedByName(r, declared, c, requireDeclaration, key, code);
    }
  }

  // ---- what a resolution promises ------------------------------------------------

  lemma SubmitsAgree(governor: seq<string>, same: seq<string>, c: Context, tokens: set<string>, requireDeclaration: bool)
    requires Submits(governor, c, tokens, requireDeclaration) && Submits(same, c, tokens, requireDeclaration)
    ensures governor == same
  {
    SortedUnique(governor, same);
  }

  lemma ListsAgree<T(!new)>(s: seq<T>, t: seq<T>, elements: set<T>)
    requires Lists(s, elements) && Lists(t, elements)
    ensures forall x :: x in s <==> x in t
  {
    assert forall x :: x in s <==> x in elements;
    assert forall x :: x in t <==> x in elements;
  }

  /** Declaring the same keys in another order, or more often, changes neither the state, nor
      the list submitted, nor what is refused and why, nor the host keys confirmed. */
  lemma OrderDoesNotMatter(declared: seq<string>, other: seq<string>, c: Context, requireDeclaration: bool,
                           r: Resolution, same: Resolution)
    requires forall k :: k in declared <==> k in other
    requires Resolves(r, c, Tokens(declared), requireDeclaration) && Resolves(same, c, Tokens(other), requireDeclaration)
    ensures r.state == same.state && r.governor == same.governor && r.derived == same.derived
    ensures forall x :: x in r.rejected <==> x in same.rejected
    ensures forall a :: a in r.redundant <==> a in same.redundant
    ensures forall k :: k in r.declared <==> k in same.declared
  {
    var tokens := Tokens(declared);
    assert tokens == Tokens(other);
    SubmitsAgree(r.governor, same.governor, c, tokens, requireDeclaration);
    ListsAgree(r.declared, same.declared, tokens);
  }

  /** An attributed request: every declared key is admitted, the host keys among them are
      derived already, none has a partner in the set submitted, and human approval is in it
      exactly when a human approved, whatever was declared. */
  lemma AttributedMeans(c: Context, tokens: set<string>, requireDeclaration: bool)
    requires StateOf(c, tokens, requireDeclaration) == Attributed
    ensures forall t :: t in tokens ==> CatalogKey(t).Some? && Admits(c, CatalogKey(t).value)
    ensures forall a :: Declares(tokens, a) && ProvenanceOf(a) == HostDerived ==> Shows(c, a)
    ensures forall a, b :: Declares(tokens, a) && Exclusive(a, b) ==> !InUnion(c, tokens, b)
    ensures InUnion(c, tokens, TylerApproved) <==> c.humanApproved
    ensures !InUnion(c, tokens, AuthorizedCampaign)
    ensures requireDeclaration ==> tokens != {}
  {
    forall t | t in tokens ensures CatalogKey(t).Some? && Admits(c, CatalogKey(t).value) {
      assert Verdict(c, tokens, t).None?;
      RefusalMeansNotAdmitted(c, t);
    }
    forall a | Declares(tokens, a) && ProvenanceOf(a) == HostDerived ensures Shows(c, a) {
      CatalogKeyOfName(a);
      assert Admits(c, CatalogKey(Name(a)).value);
      ObservedIsDerived(c, a);
    }
    forall a, b | Declares(tokens, a) && Exclusive(a, b) ensures !InUnion(c, tokens, b) {
      CatalogKeyOfName(a);
      assert Verdict(c, tokens, Name(a)).None?;
    }
  }

  ghost predicate PairFree(p: Attr -> bool) {
    forall a, b :: Exclusive(a, b) ==> !(p(a) && p(b))
  }

  /** The set submitted holds no exclusive pair exactly when the derived facts hold none:
      only declared keys are compared with the rest. */
  lemma PairFreeIffDerivedIs(c: Context, tokens: set<string>, requireDeclaration: bool)
    requires StateOf(c, tokens, requireDeclaration) == Attributed
    ensures PairFree(a => InUnion(c, tokens, a)) <==> PairFree(a => Shows(c, a))
  {
    AttributedMeans(c, tokens, requireDeclaration);
    forall a, b | Exclusive(a, b) && InUnion(c, tokens, a) && InUnion(c, tokens, b)
      ensures Shows(c, a) && Shows(c, b) {
      OnlyHostKeysClash(a, b);
    }
  }

  /** So a reply to a new contact is scored as a reply and as cold at once. */
  lemma ColdReplyIsAttributed() returns (c: Context)
    ensures StateOf(c, {"has_pii"}, true) == Attributed
    ensures InUnion(c, {"has_pii"}, ColdEmail) && InUnion(c, {"has_pii"}, ReplyToThread)
    ensures Exclusive(ColdEmail, ReplyToThread)
  {
    c := Context(None, [], 1, true, false, 0, false, [], false, false, None, None, None, None, Some(true), None, None,
      None, None, None, None, None, d => false, d => false, d => false);
    OneDeclaration(c, HasPii, "has_pii");
  }

  /** One declarable key is enough to be attributed. */
  lemma OneDeclaration(c: Context, a: Attr, token: string)
    requires ProvenanceOf(a) == Declarable && Name(a) == token
    ensures StateOf(c, {token}, true) == Attributed
  {
    CatalogKeyOfName(a);
    DeclarableNeverClashes(a);
    assert Verdict(c, {token}, token).None?;
    assert InUnion(c, {token}, a);
  }
}
