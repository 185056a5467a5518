/** Sessions cached in memory over JSON files on disk (session_store.py and the turn handlers of main.py). */
module SessionStore {
  import opened Wrappers

  // ---- Records and their JSON form ----

  datatype Json =
    | JStr(s: string)
    | JInt(n: int)
    | JNum(r: real)
    | JBool(b: bool)
    | JArr(items: seq<Json>)
    | JObj(fields: map<string, Json>)

  datatype TurnRecord = TurnRecord(
    turnIndex: int, createdAt: string, userTranscript: string, assistantReply: string,
    userAudio: string, replyAudio: string, inputMode: string,
    timings: map<string, Json>, agent: map<string, Json>)

  datatype Session = Session(
    sessionId: string, createdAt: string, updatedAt: string,
    turns: seq<TurnRecord>, agentMemory: map<string, string>)

  /** The keys of a turn's dictionary. */
  datatype Key =
    | KTurnIndex | KCreatedAt | KUserTranscript | KAssistantReply
    | KUserAudio | KReplyAudio | KInputMode | KTimings | KAgent

  type Dict = map<Key, Json>

  function EncodeTurn(t: TurnRecord): Dict {
    map[
      KTurnIndex := JInt(t.turnIndex), KCreatedAt := JStr(t.createdAt),
      KUserTranscript := JStr(t.userTranscript), KAssistantReply := JStr(t.assistantReply),
      KUserAudio := JStr(t.userAudio), KReplyAudio := JStr(t.replyAudio),
      KInputMode := JStr(t.inputMode), KTimings := JObj(t.timings), KAgent := JObj(t.agent)]
  }

  /** `data[key]` as a string; None stands for the KeyError. */
  function GetStr(d: Dict, key: Key): Option<string> {
    if key in d && d[key].JStr? then Some(d[key].s) else None
  }

  /** `data.get(key) or default`: a missing or empty string falls back. */
  function GetStrOr(d: Dict, key: Key, default: string): string {
    if key in d && d[key].JStr? && d[key].s != "" then d[key].s else default
  }

  function GetObj(d: Dict, key: Key): map<string, Json> {
    if key in d && d[key].JObj? then d[key].fields else map[]
  }

  function DecodeTurn(d: Dict): Option<TurnRecord> {
    var created, user, reply := GetStr(d, KCreatedAt), GetStr(d, KUserTranscript), GetStr(d, KAssistantReply);
    if KTurnIndex !in d || !d[KTurnIndex].JInt? || created.None? || user.None? || reply.None? then None
    else Some(TurnRecord(
      d[KTurnIndex].n, created.value, user.value, reply.value,
      GetStrOr(d, KUserAudio, ""), GetStrOr(d, KReplyAudio, ""), GetStrOr(d, KInputMode, "voice"),
      GetObj(d, KTimings), GetObj(d, KAgent)))
  }

  /** Decoding undoes encoding exactly for the turns whose input mode is not empty; an empty one comes back as voice. */
  lemma {:induction false} TurnRoundTrip(t: TurnRecord)
    ensures DecodeTurn(EncodeTurn(t)) == Some(t.(inputMode := if t.inputMode == "" then "voice" else t.inputMode))
    ensures DecodeTurn(EncodeTurn(t)) == Some(t) <==> t.inputMode != ""
  {
    assert |"voice"| == 5;
  }

  /** A turn needs four keys; every other key may be missing or empty, and then has its default. */
  lemma DecodeTurnExactly(d: Dict)
    ensures DecodeTurn(d).Some? <==>
      && KTurnIndex in d && d[KTurnIndex].JInt? && KCreatedAt in d && d[KCreatedAt].JStr?
      && KUserTranscript in d && d[KUserTranscript].JStr? && KAssistantReply in d && d[KAssistantReply].JStr?
    ensures DecodeTurn(d).Some? ==>
      var t := DecodeTurn(d).value;
      && t.turnIndex == d[KTurnIndex].n && t.createdAt == d[KCreatedAt].s
      && t.userTranscript == d[KUserTranscript].s && t.assistantReply == d[KAssistantReply].s
      && (KUserAudio !in d ==> t.userAudio == "") && (KReplyAudio !in d ==> t.replyAudio == "")
      && (KInputMode !in d || d[KInputMode] == JStr("") ==> t.inputMode == "voice")
      && (KTimings !in d ==> t.timings == map[]) && (KAgent !in d ==> t.agent == map[])
  {
  }

  function EncodeTurns(ts: seq<TurnRecord>): seq<Dict> {
    if ts == [] then [] else [EncodeTurn(ts[0])] + EncodeTurns(ts[1..])
  }

  function DecodeTurns(js: seq<Dict>): Option<seq<TurnRecord>> {
    if js == [] then Some([])
    else
      var first, rest := DecodeTurn(js[0]), DecodeTurns(js[1..]);
      if first.None? || rest.None? then None else Some([first.value] + rest.value)
  }

  predicate ModesSet(ts: seq<TurnRecord>) {
    forall k :: 0 <= k < |ts| ==> ts[k].inputMode != ""
  }

  lemma ConsEqual(first: TurnRecord, rest: seq<TurnRecord>, ts: seq<TurnRecord>)
    requires ts != []
    ensures [first] + rest == ts <==> first == ts[0] && rest == ts[1..]
  {
    assert ([first] + rest)[0] == first && ([first] + rest)[1..] == rest;
    assert [ts[0]] + ts[1..] == ts;
  }

  lemma {:induction false} TurnsRoundTrip(ts: seq<TurnRecord>)
    ensures DecodeTurns(EncodeTurns(ts)).Some?
    ensures DecodeTurns(EncodeTurns(ts)) == Some(ts) <==> ModesSet(ts)
  {
    if ts != [] {
      TurnRoundTrip(ts[0]);
      TurnsRoundTrip(ts[1..]);
      assert EncodeTurns(ts)[0] == EncodeTurn(ts[0]) && EncodeTurns(ts)[1..] == EncodeTurns(ts[1..]);
      var first, rest := DecodeTurn(EncodeTurn(ts[0])), DecodeTurns(EncodeTurns(ts[1..]));
      assert DecodeTurns(EncodeTurns(ts)) == Some([first.value] + rest.value);
      ConsEqual(first.value, rest.value, ts);
      assert ModesSet(ts) <==> ts[0].inputMode != "" && ModesSet(ts[1..]);
    }
  }

  function EncodeMemory(m: map<string, string>): map<string, Json> {
    map k | k in m :: JStr(m[k])
  }

  function DecodeMemory(m: map<string, Json>): map<string, string> {
    map k | k in m && m[k].JStr? :: m[k].s
  }

  /** The document that `_save` writes; a file of the store is such a document. */
  datatype Document = Document(
    sessionId: string, createdAt: string, updatedAt: string, turns: seq<Dict>, agentMemory: map<string, Json>)

  function Encode(s: Session): Document {
    Document(s.sessionId, s.createdAt, s.updatedAt, EncodeTurns(s.turns), EncodeMemory(s.agentMemory))
  }

  function Decode(d: Document): Option<Session> {
    match DecodeTurns(d.turns)
    case None => None
    case Some(ts) => Some(Session(d.sessionId, d.createdAt, d.updatedAt, ts, DecodeMemory(d.agentMemory)))
  }

  /** Saving and loading never fails, and is the identity exactly on the sessions whose turns carry an input mode. */
  lemma {:induction false} SessionRoundTrip(s: Session)
    ensures Decode(Encode(s)).Some?
    ensures Decode(Encode(s)) == Some(s) <==> ModesSet(s.turns)
  {
    TurnsRoundTrip(s.turns);
    assert DecodeMemory(EncodeMemory(s.agentMemory)) == s.agentMemory;
  }

  // ---- The store ----

  datatype Store = Store(cache: map<string, Session>, files: map<string, Document>, dirs: set<string>)

  const EMPTY := Store(map[], map[], {})

  /** What the pipeline hands to `_save_turn_and_respond`. */
  datatype Draft = Draft(
    createdAt: string, transcript: string, reply: string, userAudio: string, replyAudio: string,
    spoken: bool, timings: map<string, Json>, agent: map<string, Json>)

  /** A pipeline run may change the session's memory whether or not it produces a turn. */
  datatype Outcome = NotReady | Fails(memory: map<string, string>) | Succeeds(draft: Draft, memory: map<string, string>)

  function NewTurn(s: Session, d: Draft): TurnRecord {
    TurnRecord(|s.turns| + 1, d.createdAt, d.transcript, d.reply, d.userAudio, d.replyAudio,
               if d.spoken then "voice" else "text", d.timings, d.agent)
  }

  function Save(st: Store, s: Session): Store {
    st.(files := st.files[s.sessionId := Encode(s)], dirs := st.dirs + {s.sessionId})
  }

  function Create(st: Store, sid: string, now: string): Store {
    var s := Session(sid, now, now, [], map[]);
    Save(st.(cache := st.cache[sid := s]), s)
  }

  /** `get`: the cached session, or the one on disk, which is then cached. */
  function Lookup(st: Store, sid: string): Option<Session> {
    if sid in st.cache then Some(st.cache[sid])
    else if sid in st.files then Decode(st.files[sid])
    else None
  }

  function Cached(st: Store, sid: string): Store {
    match Lookup(st, sid)
    case None => st
    case Some(s) => st.(cache := st.cache[sid := s])
  }

  function Update(st: Store, s: Session, now: string): Store {
    var stamped := s.(updatedAt := now);
    Save(st.(cache := st.cache[s.sessionId := stamped]), stamped)
  }

  /** A turn request: the handler works on the cached session in place and saves it only if the pipeline succeeds. */
  function Turn(st: Store, sid: string, outcome: Outcome, now: string): Store {
    var got := Cached(st, sid);
    if Lookup(st, sid).None? || outcome.NotReady? then got
    else
      var s := Lookup(st, sid).value.(agentMemory := outcome.memory);
      if outcome.Succeeds? then Update(Touch(got, sid, s), s.(turns := s.turns + [NewTurn(s, outcome.draft)]), now)
      else Touch(got, sid, s)
  }

  /** The handler's in-place change of the cached session, beside the directory it makes for audio. */
  function Touch(st: Store, sid: string, s: Session): Store {
    st.(cache := st.cache[sid := s], dirs := st.dirs + {sid})
  }

  function Delete(st: Store, sid: string): Store {
    st.(cache := st.cache - {sid}, files := st.files - {sid}, dirs := st.dirs - {sid})
  }

  datatype Op =
    | DoCreate(sid: string, now: string)
    | DoGet(sid: string)
    | DoTurn(sid: string, outcome: Outcome, now: string)
    | DoDelete(sid: string)
    | Restart

  function Apply(st: Store, op: Op): Store {
    match op
    case DoCreate(sid, now) => Create(st, sid, now)
    case DoGet(sid) => Cached(st, sid)
    case DoTurn(sid, outcome, now) => Turn(st, sid, outcome, now)
    case DoDelete(sid) => Delete(st, sid)
    case Restart => st.(cache := map[])
  }

  /** Fresh session ids are never in use: `create` draws a random UUID. */
  predicate Enabled(st: Store, op: Op) {
    op.DoCreate? ==> op.sid !in st.dirs
  }

  // ---- The imperative form ----

  class SessionCache {
    var cache: map<string, Session>
    var files: map<string, Document>
    var dirs: set<string>

    ghost function Abstract(): Store
      reads this
    {
      Store(cache, files, dirs)
    }

    constructor ()
      ensures Abstract() == EMPTY
    {
      cache, files, dirs := map[], map[], {};
    }

    method SaveSession(s: Session)
      modifies `files, `dirs
      ensures Abstract() == Save(old(Abstract()), s)
    {
      dirs := dirs + {s.sessionId};
      files := files[s.sessionId := Encode(s)];
    }

    method CreateSession(sid: string, now: string) returns (s: Session)
      modifies this
      ensures Abstract() == Create(old(Abstract()), sid, now) && s == cache[sid]
    {
      s := Session(sid, now, now, [], map[]);
      cache := cache[sid := s];
      SaveSession(s);
    }

    method GetSession(sid: string) returns (s: Option<Session>)
      modifies `cache
      ensures s == Lookup(old(Abstract()), sid) && Abstract() == Cached(old(Abstract()), sid)
    {
      if sid in cache {
        assert cache[sid := cache[sid]] == cache;
        return Some(cache[sid]);
      }
      s := if sid in files then Decode(files[sid]) else None;
      if s.Some? {
        cache := cache[sid := s.value];
      }
    }

    method PostTurn(sid: string, outcome: Outcome, now: string)
      modifies this
      ensures Abstract() == Turn(old(Abstract()), sid, outcome, now)
    {
      var found := GetSession(sid);
      if found.None? || outcome.NotReady? {
        return;
      }
      dirs := dirs + {sid};
      var s := found.value.(agentMemory := outcome.memory);
      cache := cache[sid := s];
      if outcome.Succeeds? {
        s := s.(turns := s.turns + [NewTurn(s, outcome.draft)]);
        s := s.(updatedAt := now);
        cache := cache[s.sessionId := s];
        SaveSession(s);
      }
    }

    method DeleteSession(sid: string) returns (existed: bool)
      requires files.Keys <= dirs
      modifies this
      ensures Abstract() == Delete(old(Abstract()), sid) && existed == (sid in old(dirs))
    {
      cache := cache - {sid};
      existed := sid in dirs;
      if existed {
        files, dirs := files - {sid}, dirs - {sid};
      } else {
        assert files - {sid} == files && dirs - {sid} == dirs;
      }
    }

    /** One request, or a restart of the server, which forgets the cache. */
    method Handle(op: Op)
      requires Inv(Abstract()) && Enabled(Abstract(), op)
      modifies this
      ensures Abstract() == Apply(old(Abstract()), op)
      ensures Inv(Abstract()) && ViewOf(Abstract()) == ApplyView(old(ViewOf(Abstract())), op)
    {
      StepRefines(Abstract(), op);
      match op
      case DoCreate(sid, now) => var _ := CreateSession(sid, now);
      case DoGet(sid) => var _ := GetSession(sid);
      case DoTurn(sid, outcome, now) => PostTurn(sid, outcome, now);
      case DoDelete(sid) => var _ := DeleteSession(sid);
      case Restart => cache := map[];
    }

    /** The server over any sequence of requests and restarts behaves like the two plain maps. */
    method Serve(ops: seq<Op>)
      requires Inv(Abstract()) && EnabledAll(Abstract(), ops)
      modifies this
      ensures Abstract() == ApplyAll(old(Abstract()), ops)
      ensures Inv(Abstract()) && ViewOf(Abstract()) == ApplyViewAll(old(ViewOf(Abstract())), ops)
    {
      for n := 0 to |ops|
        invariant Inv(Abstract()) && EnabledAll(Abstract(), ops[n..])
        invariant ApplyAll(Abstract(), ops[n..]) == ApplyAll(old(Abstract()), ops)
        invariant ApplyViewAll(ViewOf(Abstract()), ops[n..]) == ApplyViewAll(old(ViewOf(Abstract())), ops)
      {
        assert ops[n..][0] == ops[n] && ops[n..][1..] == ops[n + 1..];
        Handle(ops[n]);
      }
    }
  }

  // ---- What every sequence of operations keeps ----

  predicate Numbered(ts: seq<TurnRecord>) {
    ModesSet(ts) && forall k :: 0 <= k < |ts| ==> ts[k].turnIndex == k + 1
  }

  /** The file of `sid` decodes to a session of that id whose turns are numbered 1..n. */
  predicate FileOk(st: Store, sid: string)
    requires sid in st.files
  {
    var s := Decode(st.files[sid]);
    s.Some? && s.value.sessionId == sid && Numbered(s.value.turns)
  }

  /** The cached session is the one on disk, up to a memory that a failed turn may have changed. */
  predicate CacheOk(st: Store, sid: string)
    requires sid in st.cache
  {
    && sid in st.files && st.cache[sid].sessionId == sid
    && Decode(st.files[sid]).Some? && Decode(st.files[sid]).value.turns == st.cache[sid].turns
  }

  ghost predicate Inv(st: Store) {
    && st.files.Keys == st.dirs
    && (forall sid :: sid in st.files ==> FileOk(st, sid))
    && (forall sid :: sid in st.cache ==> CacheOk(st, sid))
  }

  lemma SavedIsOk(st: Store, s: Session)
    requires Inv(st) && Numbered(s.turns)
    ensures var u := Save(st.(cache := st.cache[s.sessionId := s]), s);
      Inv(u) && FileOk(u, s.sessionId) && Decode(u.files[s.sessionId]) == Some(s)
  {
    SessionRoundTrip(s);
    var u := Save(st.(cache := st.cache[s.sessionId := s]), s);
    forall sid | sid in u.files
      ensures FileOk(u, sid)
    {
      assert sid != s.sessionId ==> FileOk(st, sid);
    }
    forall sid | sid in u.cache
      ensures CacheOk(u, sid)
    {
      assert sid != s.sessionId ==> CacheOk(st, sid);
    }
  }

  lemma LookupOk(st: Store, sid: string)
    requires Inv(st)
    ensures Lookup(st, sid).Some? <==> sid in st.files
    ensures sid in st.files ==>
      && Lookup(st, sid).value.sessionId == sid && Numbered(Lookup(st, sid).value.turns)
      && Lookup(st, sid).value.turns == Decode(st.files[sid]).value.turns
    ensures Inv(Cached(st, sid))
  {
    if sid in st.cache {
      assert CacheOk(st, sid);
    }
    if sid in st.files {
      assert FileOk(st, sid);
    }
    var u := Cached(st, sid);
    forall c | c in u.files
      ensures FileOk(u, c)
    {
      assert FileOk(st, c);
    }
    forall c | c in u.cache
      ensures CacheOk(u, c)
    {
      assert c != sid ==> CacheOk(st, c);
    }
  }

  // ---- The reference: two plain maps ----

  /** The sessions on disk, and the sessions as `get` answers them, which a failed turn can put ahead of the disk. */
  datatype View = View(saved: map<string, Session>, live: map<string, Session>)

  function SavedAt(st: Store, sid: string): Option<Session> {
    if sid in st.files then Decode(st.files[sid]) else None
  }

  function LiveAt(st: Store, sid: string): Option<Session> {
    if sid in st.files then Lookup(st, sid) else None
  }

  function ViewOf(st: Store): View {
    View(
      map sid | sid in st.files && SavedAt(st, sid).Some? :: SavedAt(st, sid).value,
      map sid | sid in st.files && LiveAt(st, sid).Some? :: LiveAt(st, sid).value)
  }

  function At(m: map<string, Session>, sid: string): Option<Session> {
    if sid in m then Some(m[sid]) else None
  }

  lemma ViewAt(st: Store, sid: string)
    ensures At(ViewOf(st).saved, sid) == SavedAt(st, sid) && At(ViewOf(st).live, sid) == LiveAt(st, sid)
  {
  }

  lemma SameMap(m: map<string, Session>, n: map<string, Session>)
    requires forall sid :: At(m, sid) == At(n, sid)
    ensures m == n
  {
    forall sid
      ensures sid in m <==> sid in n
      ensures sid in m ==> m[sid] == n[sid]
    {
      assert At(m, sid) == At(n, sid);
    }
  }

  /** The view of a store is told by what it saves and answers for each session. */
  lemma ViewIs(st: Store, v: View)
    requires forall sid :: SavedAt(st, sid) == At(v.saved, sid) && LiveAt(st, sid) == At(v.live, sid)
    ensures ViewOf(st) == v
  {
    forall sid
      ensures At(ViewOf(st).saved, sid) == At(v.saved, sid) && At(ViewOf(st).live, sid) == At(v.live, sid)
    {
      ViewAt(st, sid);
      assert SavedAt(st, sid) == At(v.saved, sid);
    }
    SameMap(ViewOf(st).saved, v.saved);
    SameMap(ViewOf(st).live, v.live);
  }

  /** The turn that follows `ts`. */
  function MapTurn(ts: seq<TurnRecord>, d: Draft): TurnRecord {
    TurnRecord(
      turnIndex := |ts| + 1, createdAt := d.createdAt, userTranscript := d.transcript, assistantReply := d.reply,
      userAudio := d.userAudio, replyAudio := d.replyAudio, inputMode := if d.spoken then "voice" else "text",
      timings := d.timings, agent := d.agent)
  }

  function Both(v: View, sid: string, s: Session): View {
    View(v.saved[sid := s], v.live[sid := s])
  }

  function ApplyView(v: View, op: Op): View {
    match op
    case DoCreate(sid, now) =>
      Both(v, sid, Session(sessionId := sid, createdAt := now, updatedAt := now, turns := [], agentMemory := map[]))
    case DoTurn(sid, Fails(memory), _) =>
      if sid in v.live then View(v.saved, v.live[sid := v.live[sid].(agentMemory := memory)]) else v
    case DoTurn(sid, Succeeds(d, memory), now) =>
      if sid in v.live then
        var s := v.live[sid];
        Both(v, sid, Session(
          sessionId := sid, createdAt := s.createdAt, updatedAt := now,
          turns := s.turns + [MapTurn(s.turns, d)], agentMemory := memory))
      else v
    case DoDelete(sid) => View(v.saved - {sid}, v.live - {sid})
    case Restart => View(v.saved, v.saved)
    case _ => v
  }

  lemma CachedRefines(st: Store, sid: string)
    requires Inv(st)
    ensures Inv(Cached(st, sid)) && ViewOf(Cached(st, sid)) == ViewOf(st)
  {
    LookupOk(st, sid);
    CachedView(st, sid);
  }

  lemma CachedView(st: Store, sid: string)
    ensures ViewOf(Cached(st, sid)) == ViewOf(st)
  {
    forall c
      ensures SavedAt(Cached(st, sid), c) == At(ViewOf(st).saved, c)
      ensures LiveAt(Cached(st, sid), c) == At(ViewOf(st).live, c)
    {
      ViewAt(st, c);
    }
    ViewIs(Cached(st, sid), ViewOf(st));
  }

  /** Saving a session writes it through to both maps. */
  lemma SavedView(st: Store, s: Session)
    requires ModesSet(s.turns)
    ensures ViewOf(Save(st.(cache := st.cache[s.sessionId := s]), s)) == Both(ViewOf(st), s.sessionId, s)
  {
    SessionRoundTrip(s);
    var u, v := Save(st.(cache := st.cache[s.sessionId := s]), s), Both(ViewOf(st), s.sessionId, s);
    forall c
      ensures SavedAt(u, c) == At(v.saved, c) && LiveAt(u, c) == At(v.live, c)
    {
      ViewAt(st, c);
      AtUpdate(ViewOf(st).saved, s.sessionId, s, c);
      AtUpdate(ViewOf(st).live, s.sessionId, s, c);
    }
    ViewIs(u, v);
  }

  lemma AtUpdate(m: map<string, Session>, sid: string, s: Session, c: string)
    ensures At(m[sid := s], c) == if c == sid then Some(s) else At(m, c)
  {
  }

  lemma AtRemoval(m: map<string, Session>, sid: string, c: string)
    ensures At(m - {sid}, c) == if c == sid then None else At(m, c)
  {
  }

  lemma SaveRefines(st: Store, s: Session)
    requires Inv(st) && Numbered(s.turns)
    ensures var u := Save(st.(cache := st.cache[s.sessionId := s]), s);
      Inv(u) && ViewOf(u) == Both(ViewOf(st), s.sessionId, s)
  {
    SavedIsOk(st, s);
    SavedView(st, s);
  }

  lemma NewTurnIsNumbered(s: Session, d: Draft)
    requires Numbered(s.turns)
    ensures Numbered(s.turns + [NewTurn(s, d)])
  {
    assert |"voice"| == 5 && |"text"| == 4;
  }

  lemma {:induction false} TurnRefines(st: Store, sid: string, outcome: Outcome, now: string)
    requires Inv(st)
    ensures Inv(Turn(st, sid, outcome, now))
    ensures ViewOf(Turn(st, sid, outcome, now)) == ApplyView(ViewOf(st), DoTurn(sid, outcome, now))
  {
    if sid !in st.files || outcome.NotReady? {
      TurnSkipped(st, sid, outcome, now);
    } else if outcome.Succeeds? {
      TurnSucceeds(st, sid, outcome, now);
    } else {
      TurnFails(st, sid, outcome, now);
    }
  }

  lemma {:induction false} TurnSkipped(st: Store, sid: string, outcome: Outcome, now: string)
    requires Inv(st) && (sid !in st.files || outcome.NotReady?)
    ensures Inv(Turn(st, sid, outcome, now)) && ViewOf(Turn(st, sid, outcome, now)) == ViewOf(st)
  {
    LookupOk(st, sid);
    CachedRefines(st, sid);
  }

  /** What the handler does when it finds session `l`. */
  lemma TurnOnFound(st: Store, sid: string, outcome: Outcome, now: string, l: Session)
    requires Lookup(st, sid) == Some(l) && l.sessionId == sid
    ensures outcome.Fails? ==>
      Turn(st, sid, outcome, now) == Touch(Cached(st, sid), sid, l.(agentMemory := outcome.memory))
    ensures outcome.Succeeds? ==>
      var s := l.(agentMemory := outcome.memory);
      var u, t := Touch(Cached(st, sid), sid, s), WithTurn(s, outcome.draft, now);
      Turn(st, sid, outcome, now) == Save(u.(cache := u.cache[sid := t]), t)
  {
  }

  function WithTurn(s: Session, d: Draft, now: string): Session {
    s.(turns := s.turns + [NewTurn(s, d)], updatedAt := now)
  }

  /** What the two maps do when the live one holds session `l`. */
  lemma ViewOnFound(v: View, sid: string, outcome: Outcome, now: string, l: Session)
    requires At(v.live, sid) == Some(l) && l.sessionId == sid
    ensures outcome.Fails? ==>
      ApplyView(v, DoTurn(sid, outcome, now)) == View(v.saved, v.live[sid := l.(agentMemory := outcome.memory)])
    ensures outcome.Succeeds? ==>
      ApplyView(v, DoTurn(sid, outcome, now))
      == Both(v, sid, WithTurn(l.(agentMemory := outcome.memory), outcome.draft, now))
  {
    if outcome.Succeeds? {
      MapTurnIsNewTurn(l.(agentMemory := outcome.memory), outcome.draft);
    }
  }

  lemma {:induction false} TurnFails(st: Store, sid: string, outcome: Outcome, now: string)
    requires Inv(st) && sid in st.files && outcome.Fails?
    ensures Inv(Turn(st, sid, outcome, now))
    ensures ViewOf(Turn(st, sid, outcome, now)) == ApplyView(ViewOf(st), DoTurn(sid, outcome, now))
  {
    LookupOk(st, sid);
    ViewAt(st, sid);
    var l := Lookup(st, sid).value;
    TurnOnFound(st, sid, outcome, now, l);
    ViewOnFound(ViewOf(st), sid, outcome, now, l);
    CachedRefines(st, sid);
    TouchRefines(Cached(st, sid), sid, l.(agentMemory := outcome.memory));
  }

  lemma {:induction false} TurnSucceeds(st: Store, sid: string, outcome: Outcome, now: string)
    requires Inv(st) && sid in st.files && outcome.Succeeds?
    ensures Inv(Turn(st, sid, outcome, now))
    ensures ViewOf(Turn(st, sid, outcome, now)) == ApplyView(ViewOf(st), DoTurn(sid, outcome, now))
  {
    LookupOk(st, sid);
    ViewAt(st, sid);
    var l := Lookup(st, sid).value;
    TurnOnFound(st, sid, outcome, now, l);
    ViewOnFound(ViewOf(st), sid, outcome, now, l);
    WrittenTurn(st, sid, l.(agentMemory := outcome.memory), outcome.draft, now);
  }

  lemma MapTurnIsNewTurn(s: Session, d: Draft)
    ensures MapTurn(s.turns, d) == NewTurn(s, d)
  {
  }

  lemma WrittenTurn(st: Store, sid: string, s: Session, d: Draft, now: string)
    requires Inv(st) && sid in st.files && s.sessionId == sid
    requires Decode(st.files[sid]).Some? && s.turns == Decode(st.files[sid]).value.turns && Numbered(s.turns)
    ensures var u, t := Touch(Cached(st, sid), sid, s), WithTurn(s, d, now);
      && Inv(Save(u.(cache := u.cache[sid := t]), t))
      && ViewOf(Save(u.(cache := u.cache[sid := t]), t)) == Both(ViewOf(st), sid, t)
  {
    var t := WithTurn(s, d, now);
    CachedRefines(st, sid);
    TouchRefines(Cached(st, sid), sid, s);
    NewTurnIsNumbered(s, d);
    SaveRefines(Touch(Cached(st, sid), sid, s), t);
    OverwrittenView(ViewOf(st), sid, s, t);
  }

  /** What a turn writes into the live session before saving it makes no difference afterwards. */
  lemma OverwrittenView(v: View, sid: string, s: Session, t: Session)
    ensures Both(View(v.saved, v.live[sid := s]), sid, t) == Both(v, sid, t)
  {
    assert v.live[sid := s][sid := t] == v.live[sid := t];
  }

  lemma CreateRefines(st: Store, sid: string, now: string)
    requires Inv(st)
    ensures Inv(Create(st, sid, now)) && ViewOf(Create(st, sid, now)) == ApplyView(ViewOf(st), DoCreate(sid, now))
  {
    SaveRefines(st, Session(sid, now, now, [], map[]));
  }

  lemma DeleteRefines(st: Store, sid: string)
    requires Inv(st)
    ensures Inv(Delete(st, sid)) && ViewOf(Delete(st, sid)) == ApplyView(ViewOf(st), DoDelete(sid))
  {
    var u := Delete(st, sid);
    forall c | c in u.files
      ensures FileOk(u, c)
    {
      assert FileOk(st, c);
    }
    forall c | c in u.cache
      ensures CacheOk(u, c)
    {
      assert CacheOk(st, c);
    }
    DeletedView(st, sid);
  }

  lemma DeletedView(st: Store, sid: string)
    ensures ViewOf(Delete(st, sid)) == ApplyView(ViewOf(st), DoDelete(sid))
  {
    var u, v := Delete(st, sid), ApplyView(ViewOf(st), DoDelete(sid));
    forall c
      ensures SavedAt(u, c) == At(v.saved, c) && LiveAt(u, c) == At(v.live, c)
    {
      ViewAt(st, c);
      AtRemoval(ViewOf(st).saved, sid, c);
      AtRemoval(ViewOf(st).live, sid, c);
    }
    ViewIs(u, v);
  }

  /** Changing the memory of a cached session keeps the store consistent and changes nothing but the live session. */
  lemma TouchRefines(st: Store, sid: string, s: Session)
    requires Inv(st) && s.sessionId == sid && sid in st.files
    requires Decode(st.files[sid]).Some? && s.turns == Decode(st.files[sid]).value.turns
    ensures Inv(Touch(st, sid, s))
    ensures ViewOf(Touch(st, sid, s)) == View(ViewOf(st).saved, ViewOf(st).live[sid := s])
  {
    var u := Touch(st, sid, s);
    forall c | c in u.files
      ensures FileOk(u, c)
    {
      assert FileOk(st, c);
    }
    forall c | c in u.cache
      ensures CacheOk(u, c)
    {
      assert c != sid ==> CacheOk(st, c);
    }
    TouchedView(st, sid, s);
  }

  lemma TouchedView(st: Store, sid: string, s: Session)
    requires sid in st.files
    ensures ViewOf(Touch(st, sid, s)) == View(ViewOf(st).saved, ViewOf(st).live[sid := s])
  {
    var u, v := Touch(st, sid, s), View(ViewOf(st).saved, ViewOf(st).live[sid := s]);
    forall c
      ensures SavedAt(u, c) == At(v.saved, c) && LiveAt(u, c) == At(v.live, c)
    {
      ViewAt(st, c);
      AtUpdate(ViewOf(st).live, sid, s, c);
    }
    ViewIs(u, v);
  }

  /** Every operation keeps the invariant and acts on the sessions as on the two plain maps. */
  lemma {:induction false} StepRefines(st: Store, op: Op)
    requires Inv(st) && Enabled(st, op)
    ensures Inv(Apply(st, op))
    ensures ViewOf(Apply(st, op)) == ApplyView(ViewOf(st), op)
  {
    match op
    case DoCreate(sid, now) => CreateRefines(st, sid, now);
    case DoGet(sid) => CachedRefines(st, sid);
    case DoTurn(sid, outcome, now) => TurnRefines(st, sid, outcome, now);
    case DoDelete(sid) => DeleteRefines(st, sid);
    case Restart => RestartRefines(st);
  }

  lemma RestartRefines(st: Store)
    requires Inv(st)
    ensures Inv(st.(cache := map[])) && ViewOf(st.(cache := map[])) == ApplyView(ViewOf(st), Restart)
  {
    var u := st.(cache := map[]);
    forall c | c in u.files
      ensures FileOk(u, c)
    {
      assert FileOk(st, c);
    }
    RestartedView(st);
  }

  lemma RestartedView(st: Store)
    ensures ViewOf(st.(cache := map[])) == ApplyView(ViewOf(st), Restart)
  {
    var u, v := st.(cache := map[]), ApplyView(ViewOf(st), Restart);
    forall c
      ensures SavedAt(u, c) == At(v.saved, c) && LiveAt(u, c) == At(v.live, c)
    {
      ViewAt(st, c);
    }
    ViewIs(u, v);
  }

  ghost predicate EnabledAll(st: Store, ops: seq<Op>)
    decreases |ops|
  {
    ops == [] || (Enabled(st, ops[0]) && EnabledAll(Apply(st, ops[0]), ops[1..]))
  }

  function ApplyAll(st: Store, ops: seq<Op>): Store
    decreases |ops|
  {
    if ops == [] then st else ApplyAll(Apply(st, ops[0]), ops[1..])
  }

  function ApplyViewAll(v: View, ops: seq<Op>): View
    decreases |ops|
  {
    if ops == [] then v else ApplyViewAll(ApplyView(v, ops[0]), ops[1..])
  }

  /**
   * After any sequence of operations, restarts included, disk and `get` hold the sessions that the two plain maps
   * hold, fields, turns and memory.
   */
  lemma {:induction false} StoreRefinesMap(st: Store, ops: seq<Op>)
    requires Inv(st) && EnabledAll(st, ops)
    ensures Inv(ApplyAll(st, ops))
    ensures ViewOf(ApplyAll(st, ops)) == ApplyViewAll(ViewOf(st), ops)
    decreases |ops|
  {
    if ops != [] {
      StepRefines(st, ops[0]);
      StoreRefinesMap(Apply(st, ops[0]), ops[1..]);
    }
  }

  /** `get` answers with the live map's session, its turns numbered from 1; a session not in it is nowhere. */
  lemma {:induction false} GetAnswersFromMap(ops: seq<Op>, sid: string)
    requires EnabledAll(EMPTY, ops)
    ensures var st, v := ApplyAll(EMPTY, ops), ApplyViewAll(View(map[], map[]), ops);
      && v.saved.Keys == v.live.Keys
      && (sid in v.live <==> sid in st.dirs) && Lookup(st, sid) == (if sid in v.live then Some(v.live[sid]) else None)
      && (sid in v.live ==> v.live[sid].turns == v.saved[sid].turns && Numbered(v.live[sid].turns))
      && (sid !in v.live ==> sid !in st.cache && sid !in st.files && sid !in st.dirs)
  {
    assert ViewOf(EMPTY) == View(map[], map[]);
    StoreRefinesMap(EMPTY, ops);
    var st := ApplyAll(EMPTY, ops);
    LookupOk(st, sid);
    forall c
      ensures c in st.files <==> c in ViewOf(st).saved
      ensures c in st.files <==> c in ViewOf(st).live
    {
      LookupOk(st, c);
      assert c in st.files ==> FileOk(st, c);
    }
    if sid in st.cache {
      assert CacheOk(st, sid);
    }
  }
}
