/** Conversations: the record that lists the message ids, the message records, the index table and the
    message events, and what each call answers and leaves behind. */
module ConversationRules {
  import opened Ledger
  import opened StoreSpec

  datatype Base = Base(db: Tables, index: map<Text, IndexRow>)

  datatype Post = Post(role: Text, content: string, trace: Text, metadata: Value, idem: Value)

  /** What a call generates: ids nobody has seen, and two readings of the clock. */
  datatype Fresh = Fresh(id: Text, event: Text, at: int, stamp: int)

  datatype Why =
    | RoleInvalid | MessageEmpty | Unreadable | ConversationNotFound | IntegrityInvalid | IsClosed
    | KeyConflict | EventIdentityConflict

  datatype Outcome = Returned(p: Payload) | Raised(why: Why)

  datatype Result = Result(base: Base, outcome: Outcome)

  const ROLES: set<Text> := {Lit(UserRole), Lit(AssistantRole), Lit(SystemRole)}
  const DEFAULT_TITLE := "NEXARA \U{5BF9}\U{8BDD}"

  // ---- texts --------------------------------------------------------------------------------

  function DropLeft(s: string): string {
    if s != "" && Whitespace(s[..1]) then DropLeft(s[1..]) else s
  }

  function DropRight(s: string): string {
    if s != "" && Whitespace(s[|s| - 1..]) then DropRight(s[..|s| - 1]) else s
  }

  /** `s.strip()`. */
  function Strip(s: string): string {
    DropRight(DropLeft(s))
  }

  /** `s[:120]`. */
  function Head(s: string): string {
    if |s| <= 120 then s else s[..120]
  }

  // ---- reading ------------------------------------------------------------------------------

  predicate IsConversation(rs: map<Text, Row>, c: Text) {
    c in rs && rs[c].rtype == Lit(ConversationRecord)
  }

  predicate IsMessage(rs: map<Text, Row>, m: Text) {
    m in rs && rs[m].rtype == Lit(MessageRecord)
  }

  /** `get`: the record under the id, and an intact conversation record of that id. */
  ghost function Lookup(rs: map<Text, Row>, c: Text): Outcome {
    if c !in rs then Raised(ConversationNotFound)
    else
      match rs[c].body
      case Malformed(_) => Raised(Unreadable)
      case NonObject(v) => Raised(if Truthy(v) then Unreadable else ConversationNotFound)
      case Obj(p) =>
        if Get(p, ConversationId) != Str(c) then Raised(ConversationNotFound)
        else if !exists id :: Finds(rs, Lit(ConversationRecord), ConversationId, Str(c), id) then Raised(IntegrityInvalid)
        else Returned(p)
  }

  /** `messages` lists the row. */
  predicate MessageOf(rs: map<Text, Row>, c: Text, m: Text) {
    IsMessage(rs, m) && rs[m].body.Obj? && Get(rs[m].body.p, ConversationId) == Str(c)
  }

  function Belongs(rs: map<Text, Row>, c: Text): Text -> bool {
    m => MessageOf(rs, c, m)
  }

  predicate Keyed(rs: map<Text, Row>, c: Text, idem: Value, m: Text) {
    MessageOf(rs, c, m) && Get(rs[m].body.p, IdempotencyKey) == idem
  }

  /** What `find_message_by_idempotency` may find. */
  ghost predicate MayHit(rs: map<Text, Row>, c: Text, idem: Value, hit: Option<Text>) {
    match hit
    case Some(m) => Keyed(rs, c, idem, m)
    case None => forall m :: !Keyed(rs, c, idem, m)
  }

  function Names(items: seq<Value>): (names: seq<Text>)
    ensures |names| == |items| && forall i :: 0 <= i < |items| ==> names[i] == Show(items[i])
  {
    seq(|items|, i requires 0 <= i < |items| => Show(items[i]))
  }

  /** The message ids a conversation record lists. */
  function Ids(p: Payload): seq<Text> {
    var v := Get(p, MessageIds);
    if v.List? then Names(v.items) else []
  }

  // ---- creating, closing, reopening -----------------------------------------------------------

  function NewConversation(title: Option<string>, gen: Fresh): Payload {
    var chosen := if title.Some? && title.value != "" then title.value else DEFAULT_TITLE;
    map[ConversationId := Str(gen.id), Title := Str(User(Head(Strip(chosen)))), CreatedAt := Str(Stamp(gen.at)),
        UpdateTime := Str(Stamp(gen.at)), Status := Literal(OpenStatus), MessageIds := List([])]
  }

  function ConversationItem(c: Text, p: Payload): Item {
    Item(c, Lit(ConversationRecord), Str(c), Show(Get(p, CreatedAt)), p)
  }

  function ConversationEvent(kind: Word, c: Text, gen: Fresh, f: Field, v: Value): Event {
    Event(gen.event, EventRow(Lit(kind), c, Lit(ConversationAggregate), Lit(RuntimeActor), c, Stamp(gen.stamp),
                              Some(Key(kind, c)), Obj(map[f := v])))
  }

  /** A record saved and an event published under a key of its own. */
  ghost function Announce(b: Base, it: Item, ev: Event): Result {
    Result(b.(db := SaveEvent(SaveRecord(b.db, it), ev)),
           if Publishes(b.db.events, ev) then Returned(it.payload) else Raised(EventIdentityConflict))
  }

  ghost function Create(b: Base, title: Option<string>, gen: Fresh): Result {
    var p := NewConversation(title, gen);
    Announce(b, ConversationItem(gen.id, p), ConversationEvent(ConversationCreated, gen.id, gen, Title, p[Title]))
  }

  /** Moves the status, unless it is already there. */
  ghost function SetStatus(b: Base, c: Text, status: Word, kind: Word, gen: Fresh): Result {
    match Lookup(b.db.records, c)
    case Raised(why) => Result(b, Raised(why))
    case Returned(p) =>
      if Get(p, Status) == Literal(status) then Result(b, Returned(p))
      else
        var q := p[Status := Literal(status)][UpdateTime := Str(Stamp(gen.at))];
        Announce(b, ConversationItem(c, q), ConversationEvent(kind, c, gen, Status, Literal(status)))
  }

  ghost function Close(b: Base, c: Text, gen: Fresh): Result {
    SetStatus(b, c, ClosedStatus, ConversationClosed, gen)
  }

  ghost function Reopen(b: Base, c: Text, gen: Fresh): Result {
    SetStatus(b, c, OpenStatus, ConversationReopened, gen)
  }

  // ---- appending ------------------------------------------------------------------------------

  const MESSAGE_FIELDS: set<Field> :=
    {MessageId, ConversationId, Role, Content, CreatedAt, TraceId, IdempotencyKey, Metadata}

  function MessageField(f: Field, c: Text, post: Post, gen: Fresh): Value {
    match f
    case MessageId => Str(gen.id)
    case ConversationId => Str(c)
    case Role => Str(post.role)
    case Content => Str(User(Strip(post.content)))
    case CreatedAt => Str(Stamp(gen.at))
    case TraceId => Str(post.trace)
    case IdempotencyKey => post.idem
    case _ => if Truthy(post.metadata) then post.metadata else Object(map[])
  }

  function NewMessage(c: Text, post: Post, gen: Fresh): Payload {
    map f | f in MESSAGE_FIELDS :: MessageField(f, c, post, gen)
  }

  function MessageItem(c: Text, post: Post, gen: Fresh): Item {
    Item(gen.id, Lit(MessageRecord), Str(c), Stamp(gen.at), NewMessage(c, post, gen))
  }

  /** The conversation record after the append: one more id, and a first user message names it. */
  function WithMessage(p: Payload, post: Post, gen: Fresh): Payload {
    var ids := Get(p, MessageIds);
    var q := p[MessageIds := List((if ids.List? then ids.items else []) + [Str(gen.id)])][UpdateTime := Str(Stamp(gen.at))];
    if Get(p, Title) == Str(User(DEFAULT_TITLE)) && post.role == Lit(UserRole) then
      q[Title := Str(User(Head(Strip(post.content))))]
    else q
  }

  function MessageEvent(c: Text, post: Post, gen: Fresh): Event {
    Event(gen.event, EventRow(
      Key(MessagePosted, post.role), c, Lit(ConversationAggregate), Lit(RuntimeActor), post.trace, Stamp(gen.stamp),
      Some(Key(MessagePosted, gen.id)), Obj(map[MessageId := Str(gen.id), Role := Str(post.role)])))
  }

  function Appended(b: Base, c: Text, p: Payload, post: Post, gen: Fresh): Base {
    Base(SaveBundle(b.db, MessageItem(c, post, gen), ConversationItem(c, WithMessage(p, post, gen)), MessageEvent(c, post, gen)),
         b.index[gen.id := IndexRow(c, Stamp(gen.at))])
  }

  predicate SameSaying(q: Payload, post: Post) {
    Get(q, Role) == Str(post.role) && Get(q, Content) == Str(User(Strip(post.content)))
  }

  ghost function AppendTo(b: Base, c: Text, p: Payload, post: Post, gen: Fresh, hit: Option<Text>): Result {
    if Get(p, Status) == Literal(ClosedStatus) then Result(b, Raised(IsClosed))
    else if Truthy(post.idem) && hit.Some? && hit.value in b.db.records && b.db.records[hit.value].body.Obj? then
      var q := b.db.records[hit.value].body.p;
      Result(b, if SameSaying(q, post) then Returned(q) else Raised(KeyConflict))
    else Result(Appended(b, c, p, post, gen), Returned(NewMessage(c, post, gen)))
  }

  ghost function Append(b: Base, c: Text, post: Post, gen: Fresh, hit: Option<Text>): Result {
    if post.role !in ROLES then Result(b, Raised(RoleInvalid))
    else if Strip(post.content) == "" then Result(b, Raised(MessageEmpty))
    else
      match Lookup(b.db.records, c)
      case Raised(why) => Result(b, Raised(why))
      case Returned(p) => AppendTo(b, c, p, post, gen, hit)
  }

  // ---- the index ------------------------------------------------------------------------------

  /** The index rows a restart adds: messages not indexed yet whose conversation is there. */
  function Backfilled(rs: map<Text, Row>, index: map<Text, IndexRow>): map<Text, IndexRow> {
    map m | m in rs.Keys + index.Keys && (m in index || Indexable(rs, m)) ::
      if m in index then index[m] else IndexRow(Show(Get(rs[m].body.p, ConversationId)), rs[m].created)
  }

  predicate Indexable(rs: map<Text, Row>, m: Text) {
    IsMessage(rs, m) && rs[m].body.Obj? && Get(rs[m].body.p, ConversationId) != Null
    && IsConversation(rs, Show(Get(rs[m].body.p, ConversationId)))
  }
}
