/**
 * Replies via email: the Mandrill inbound webhook listener.
 *
 * A webhook call is authorised by three checks (feature enabled, Mandrill is
 * the selected handler, the caller's key matches), then the `mandrill_events`
 * parameter is decoded into a list of events, and each event is filtered,
 * its fields are extracted with defaults, its body is chosen (rich text over
 * plain text) and a trust policy (spam score, SPF, DKIM) decides whether the
 * reply is forced to `spam` before it is handed to the comment poster.
 *
 * What the event list decodes to, how HTML bodies are converted, and what the
 * expected key is are oracles supplied in an `Environment`; the calls to the
 * comment poster are recorded in the order they are made.
 */
module Mandrill {
  import opened Wrappers
  import opened PhpString
  import Seqs

  /** The `msg` object of an inbound event, each property after its PHP cast (`None`: not set). */
  datatype RawMsg = RawMsg(
    email: Option<string>,
    fromName: Option<string>,
    fromEmail: Option<string>,
    subject: Option<string>,
    text: Option<string>,
    html: Option<string>,
    spamScore: Option<real>,   // msg->spam_report->score
    spfResult: Option<string>, // msg->spf->result
    dkimSigned: Option<bool>,  // msg->dkim->signed
    dkimValid: Option<bool>)   // msg->dkim->valid

  /**
   * One element of the decoded event array. `NonObject` stands for an element
   * whose properties cannot be read (a number, a string, a nested array); `msg`
   * is `None` when it is missing or not an object.
   */
  datatype RawEvent =
    | NonObject
    | Event(ts: Option<int>, kind: Option<string>, msg: Option<RawMsg>)

  /** The `$_REQUEST['mandrill_events']` parameter. */
  datatype EventsParam = Absent | NotString | Text(s: string)

  /** `json_decode(trim(stripslashes($s)))`, `None` when the result is not an array. */
  type Decoder = string -> Option<seq<RawEvent>>

  /** The `htmlToText` and `htmlToRichText` string utilities. */
  datatype Converters = Converters(htmlToText: string -> string, htmlToRichText: string -> string)

  /** The plugin options the listener reads: enable flag, handler, and the three policy settings, already cast. */
  datatype RveOptions = RveOptions(
    repliesViaEmailEnable: string,
    handler: string,
    maxSpamScore: real,
    spfCheck: int,
    dkimCheck: int)

  /** Everything a webhook call depends on besides the caller's key. */
  datatype Environment = Environment(
    options: RveOptions,
    expectedKey: string, // the HMAC-SHA256 signature of the class name
    param: EventsParam,
    decode: Decoder,
    now: int,            // the current Unix time
    converters: Converters)

  /** The arguments `processEvents` passes to `maybeProcessCommentReply`. */
  datatype ReplyArgs = ReplyArgs(
    replyToEmail: string,
    fromName: string,
    fromEmail: string,
    subject: string,
    textBody: string,
    htmlBody: string,
    spamScore: real,
    spfResult: string,
    dkimSigned: bool,
    dkimValid: bool)

  /** The arguments handed to the comment poster (`maybePostComment`). */
  datatype PostArgs = PostArgs(
    replyToEmail: string,
    fromName: string,
    fromEmail: string,
    subject: string,
    richTextBody: string,
    forceStatus: Option<string>)

  /** Events older than this many seconds (`strtotime('-7 days')`) are stale. */
  const StaleWindow: int := 7 * 24 * 60 * 60

  // ---------------------------------------------------------------- gate

  /** The three checks of `maybeProcess`; `key` is the caller's key after `trim`. */
  predicate Authorized(o: RveOptions, key: string, expectedKey: string) {
    Truthy(o.repliesViaEmailEnable) && o.handler == "mandrill" && key == expectedKey
  }

  // ---------------------------------------------------------------- collect

  /** `collectEvents`: the decoded event list, or no events at all. */
  function CollectedEvents(p: EventsParam, decode: Decoder): (es: seq<RawEvent>)
    ensures (p.Absent? || p.NotString? || (p.Text? && !Truthy(p.s))) ==> es == []
    ensures p.Text? && Truthy(p.s) && decode(p.s).None? ==> es == []
  {
    match p
    case Text(s) =>
      if !Truthy(s) then []
      else (match decode(s) case Some(es) => es case None => [])
    case Absent => []
    case NotString => []
  }

  // ---------------------------------------------------------------- filter and extract

  /** An event survives the three `continue` guards of `processEvents`. */
  predicate Admissible(e: RawEvent, now: int) {
    && e.Event?
    && e.ts.Some? && e.ts.value != 0 && !(e.ts.value < now - StaleWindow)
    && e.kind == Some("inbound")
    && e.msg.Some?
  }

  /** The typed fields of a message, each defaulting when unset; the SPF result is lower-cased. */
  function Extract(m: RawMsg): (a: ReplyArgs)
    ensures a.replyToEmail == if m.email.Some? then m.email.value else ""
    ensures a.fromName == if m.fromName.Some? then m.fromName.value else ""
    ensures a.fromEmail == if m.fromEmail.Some? then m.fromEmail.value else ""
    ensures a.subject == if m.subject.Some? then m.subject.value else ""
    ensures a.textBody == if m.text.Some? then m.text.value else ""
    ensures a.htmlBody == if m.html.Some? then m.html.value else ""
    ensures a.spamScore == if m.spamScore.Some? then m.spamScore.value else 0.0
    ensures a.spfResult == if m.spfResult.Some? then ToLower(m.spfResult.value) else "none"
    ensures a.dkimSigned <==> m.dkimSigned == Some(true)
    ensures a.dkimValid <==> m.dkimValid == Some(true)
  {
    ReplyArgs(
      m.email.GetOr(""),
      m.fromName.GetOr(""),
      m.fromEmail.GetOr(""),
      m.subject.GetOr(""),
      m.text.GetOr(""),
      m.html.GetOr(""),
      m.spamScore.GetOr(0.0),
      match m.spfResult case Some(r) => ToLower(r) case None => "none",
      m.dkimSigned.GetOr(false),
      m.dkimValid.GetOr(false))
  }

  // ---------------------------------------------------------------- body and policy

  /** `coalesce($a, $b)`: the first argument that is not PHP-empty, else `''`. */
  function Coalesce(a: string, b: string): (r: string)
    ensures Truthy(r) <==> Truthy(a) || Truthy(b)
    ensures Truthy(a) ==> r == a
    ensures !Truthy(a) && Truthy(b) ==> r == b
  {
    if Truthy(a) then a else if Truthy(b) then b else ""
  }

  /** The SPF check at level `level` (`rve_mandrill_spf_check_enable`) rejects `result`. */
  predicate SpfForcesSpam(level: int, result: string) {
    || (level == 1 && result !in ["pass", "neutral", "softfail", "none"])
    || (level == 2 && result !in ["pass", "neutral", "none"])
    || (level == 3 && result !in ["pass", "neutral"])
    || (level == 4 && result !in ["pass"])
  }

  /** The DKIM check at level `level` (`rve_mandrill_dkim_check_enable`) rejects the signature state. */
  predicate DkimForcesSpam(level: int, signed: bool, valid: bool) {
    (level == 1 && signed && !valid) || (level == 2 && (!signed || !valid))
  }

  /**
   * `maybeProcessCommentReply`: normalise the arguments, return (post nothing)
   * without a reply-to address or without a body, otherwise post the reply with
   * `force_status` accumulated over the three checks. Its properties are the
   * lemmas that follow.
   */
  function ProcessReply(a: ReplyArgs, o: RveOptions, cv: Converters): Option<PostArgs>
  {
    var replyTo := Trim(a.replyToEmail);
    var spf := Trim(ToLower(a.spfResult));
    if !Truthy(replyTo) then None
    else
      var text := cv.htmlToText(Trim(a.textBody));
      var html := cv.htmlToRichText(Trim(a.htmlBody));
      var body := Coalesce(html, text);
      if !Truthy(body) then None
      else
        var initial: Option<string> := None;
        var afterScore := if a.spamScore >= o.maxSpamScore then Some("spam") else initial;
        var afterSpf := if SpfForcesSpam(o.spfCheck, spf) then Some("spam") else afterScore;
        var afterDkim := if DkimForcesSpam(o.dkimCheck, a.dkimSigned, a.dkimValid) then Some("spam") else afterSpf;
        Some(PostArgs(replyTo, Trim(a.fromName), Trim(a.fromEmail), Trim(a.subject), body, afterDkim))
  }

  /** The body gate: a reply is posted exactly when there is a reply-to address and a converted body. */
  lemma ProcessReplyGates(a: ReplyArgs, o: RveOptions, cv: Converters)
    ensures var text := cv.htmlToText(Trim(a.textBody));
            var html := cv.htmlToRichText(Trim(a.htmlBody));
            ProcessReply(a, o, cv).Some? <==> Truthy(Trim(a.replyToEmail)) && (Truthy(html) || Truthy(text))
  {
  }

  /** The posted fields: trimmed addresses and subject; the rich-text body when it is non-empty, else the text body. */
  lemma ProcessReplyFields(a: ReplyArgs, o: RveOptions, cv: Converters)
    requires ProcessReply(a, o, cv).Some?
    ensures var p := ProcessReply(a, o, cv).value;
            var html := cv.htmlToRichText(Trim(a.htmlBody));
            && Truthy(p.replyToEmail) && Truthy(p.richTextBody)
            && p.replyToEmail == Trim(a.replyToEmail)
            && p.fromName == Trim(a.fromName)
            && p.fromEmail == Trim(a.fromEmail)
            && p.subject == Trim(a.subject)
            && p.richTextBody == (if Truthy(html) then html else cv.htmlToText(Trim(a.textBody)))
  {
  }

  /** `force_status` is `null` or `'spam'`, and it is `'spam'` exactly when at least one check fires. */
  lemma ProcessReplyForceStatus(a: ReplyArgs, o: RveOptions, cv: Converters)
    requires ProcessReply(a, o, cv).Some?
    ensures var p := ProcessReply(a, o, cv).value;
            && (p.forceStatus.None? || p.forceStatus == Some("spam"))
            && (p.forceStatus == Some("spam") <==>
                  || a.spamScore >= o.maxSpamScore
                  || SpfForcesSpam(o.spfCheck, Trim(ToLower(a.spfResult)))
                  || DkimForcesSpam(o.dkimCheck, a.dkimSigned, a.dkimValid))
  {
  }

  // ---------------------------------------------------------------- the batch

  /** What one event contributes to the poster: nothing when it is filtered out or gated. */
  function EventReply(e: RawEvent, now: int, o: RveOptions, cv: Converters): Option<PostArgs> {
    if Admissible(e, now) then ProcessReply(Extract(e.msg.value), o, cv) else None
  }

  /** `processEvents`: the posts made for a list of events, in order. */
  function Replies(es: seq<RawEvent>, now: int, o: RveOptions, cv: Converters): (r: seq<PostArgs>)
    ensures |r| <= |es|
  {
    if es == [] then []
    else
      var rest := Replies(es[1..], now, o, cv);
      match EventReply(es[0], now, o, cv)
      case Some(p) => [p] + rest
      case None => rest
  }

  /** Events are processed independently: the posts of a concatenation are the concatenated posts. */
  lemma {:induction false} RepliesAppend(a: seq<RawEvent>, b: seq<RawEvent>, now: int, o: RveOptions, cv: Converters)
    ensures Replies(a + b, now, o, cv) == Replies(a, now, o, cv) + Replies(b, now, o, cv)
  {
    if a == [] {
      assert a + b == b;
    } else {
      assert (a + b)[0] == a[0];
      assert (a + b)[1..] == a[1..] + b;
      RepliesAppend(a[1..], b, now, o, cv);
      match EventReply(a[0], now, o, cv)
      case Some(p) => Seqs.ConcatAssoc([p], Replies(a[1..], now, o, cv), Replies(b, now, o, cv));
      case None =>
    }
  }

  /** A skipped event never affects the posts made for the others. */
  lemma SkippedEventIsInvisible(a: seq<RawEvent>, e: RawEvent, b: seq<RawEvent>, now: int, o: RveOptions, cv: Converters)
    requires EventReply(e, now, o, cv).None?
    ensures Replies(a + [e] + b, now, o, cv) == Replies(a + b, now, o, cv)
  {
    RepliesAppend(a + [e], b, now, o, cv);
    RepliesAppend(a, [e], now, o, cv);
    RepliesAppend(a, b, now, o, cv);
  }

  /** Every post carries a reply-to address, a body, and either no forced status or `spam`. */
  lemma {:induction false} RepliesWellFormed(es: seq<RawEvent>, now: int, o: RveOptions, cv: Converters)
    ensures forall p :: p in Replies(es, now, o, cv) ==>
              Truthy(p.replyToEmail) && Truthy(p.richTextBody) &&
              (p.forceStatus.None? || p.forceStatus == Some("spam"))
  {
    if es != [] {
      RepliesWellFormed(es[1..], now, o, cv);
      var e := es[0];
      if Admissible(e, now) && ProcessReply(Extract(e.msg.value), o, cv).Some? {
        ProcessReplyFields(Extract(e.msg.value), o, cv);
        ProcessReplyForceStatus(Extract(e.msg.value), o, cv);
      }
    }
  }

  /** Every post comes from an event of the batch that passes the filters. */
  lemma {:induction false} RepliesComeFromAdmissibleEvents(es: seq<RawEvent>, now: int, o: RveOptions, cv: Converters)
    ensures forall p :: p in Replies(es, now, o, cv) ==>
              exists k :: 0 <= k < |es| && Admissible(es[k], now) && EventReply(es[k], now, o, cv) == Some(p)
  {
    if es != [] {
      var rest := Replies(es[1..], now, o, cv);
      RepliesComeFromAdmissibleEvents(es[1..], now, o, cv);
      forall p | p in rest
        ensures exists k :: 0 <= k < |es| && Admissible(es[k], now) && EventReply(es[k], now, o, cv) == Some(p)
      {
        var j :| 0 <= j < |es[1..]| && Admissible(es[1..][j], now) && EventReply(es[1..][j], now, o, cv) == Some(p);
        assert es[j + 1] == es[1..][j];
      }
    }
  }

  /** The posts for a single event. */
  lemma RepliesOfOne(e: RawEvent, now: int, o: RveOptions, cv: Converters)
    ensures Replies([e], now, o, cv) == match EventReply(e, now, o, cv) case Some(p) => [p] case None => []
  {
    assert [e][1..] == [];
  }

  /** An event is skipped exactly when a filter, the reply-to gate or the body gate rejects it. */
  lemma EventSkippedIff(e: RawEvent, now: int, o: RveOptions, cv: Converters)
    ensures Replies([e], now, o, cv) == [] <==>
              || !Admissible(e, now)
              || var a := Extract(e.msg.value);
                 || !Truthy(Trim(a.replyToEmail))
                 || (!Truthy(cv.htmlToRichText(Trim(a.htmlBody))) && !Truthy(cv.htmlToText(Trim(a.textBody))))
  {
    assert [e][1..] == [];
  }

  /** The staleness boundary: an event exactly seven days old is kept, one a second older is dropped. */
  lemma StaleBoundary(now: int, kind: Option<string>, msg: Option<RawMsg>)
    requires now - StaleWindow != 0
    ensures Admissible(Event(Some(now - StaleWindow), Some("inbound"), Some(RawMsg(None, None, None, None, None, None, None, None, None, None))), now)
    ensures !Admissible(Event(Some(now - StaleWindow - 1), kind, msg), now)
  {
  }

  /** A missing, non-string, falsy or undecodable `mandrill_events` parameter means zero posts. */
  lemma MalformedBatchPostsNothing(p: EventsParam, decode: Decoder, now: int, o: RveOptions, cv: Converters)
    requires !p.Text? || !Truthy(p.s) || decode(p.s).None?
    ensures Replies(CollectedEvents(p, decode), now, o, cv) == []
  {
  }

  // ---------------------------------------------------------------- policy properties

  /** A spam score at or above the maximum forces `spam`, whatever SPF and DKIM say. */
  lemma SpamScoreForcesSpam(a: ReplyArgs, o: RveOptions, cv: Converters)
    requires a.spamScore >= o.maxSpamScore
    ensures var r := ProcessReply(a, o, cv); r.Some? ==> r.value.forceStatus == Some("spam")
  {
    if ProcessReply(a, o, cv).Some? {
      ProcessReplyForceStatus(a, o, cv);
    }
  }

  /** The accepted SPF results shrink strictly from level 1 to level 4; other levels accept everything. */
  lemma SpfLevelsNest(result: string)
    ensures forall level: int :: !(1 <= level <= 4) ==> !SpfForcesSpam(level, result)
    ensures SpfForcesSpam(1, result) ==> SpfForcesSpam(2, result)
    ensures SpfForcesSpam(2, result) ==> SpfForcesSpam(3, result)
    ensures SpfForcesSpam(3, result) ==> SpfForcesSpam(4, result)
    ensures SpfForcesSpam(4, result) <==> result != "pass"
    ensures !SpfForcesSpam(1, "softfail") && SpfForcesSpam(2, "softfail")
    ensures !SpfForcesSpam(2, "none") && SpfForcesSpam(3, "none")
    ensures !SpfForcesSpam(3, "neutral") && SpfForcesSpam(4, "neutral")
  {
  }

  /** The SPF results of section 2.6 of RFC 7208 that no level accepts. */
  lemma SpfErrorsAlwaysForceSpam(level: int)
    requires 1 <= level <= 4
    ensures SpfForcesSpam(level, "fail") && SpfForcesSpam(level, "temperror") && SpfForcesSpam(level, "permerror")
  {
  }

  /** DKIM level 1 tolerates a missing signature; level 2 demands a valid one; any other level is off. */
  lemma DkimLevels(signed: bool, valid: bool, level: int)
    ensures DkimForcesSpam(1, signed, valid) <==> signed && !valid
    ensures DkimForcesSpam(2, signed, valid) <==> !(signed && valid)
    ensures level != 1 && level != 2 ==> !DkimForcesSpam(level, signed, valid)
  {
  }

  // ---------------------------------------------------------------- the listener

  /** The listener object: the trimmed key, the collected events, and the posts made so far. */
  class RveMandrill {
    var key: string
    var events: seq<RawEvent>
    var posted: seq<PostArgs>

    /** `__construct`: trim the key, then process the call. */
    constructor (callerKey: string, env: Environment)
      ensures key == Trim(callerKey)
      ensures events == if Authorized(env.options, key, env.expectedKey)
                        then CollectedEvents(env.param, env.decode) else []
      ensures posted == Replies(events, env.now, env.options, env.converters)
    {
      key := Trim(callerKey);
      events := [];
      posted := [];
      new;
      MaybeProcess(env);
      if Authorized(env.options, key, env.expectedKey) {
        assert [] + Replies(events, env.now, env.options, env.converters) == posted;
      } else {
        assert events == [] && posted == [];
      }
    }

    /** `maybeProcess`: the gate, then collect and process. */
    method MaybeProcess(env: Environment)
      modifies this`events, this`posted
      ensures Authorized(env.options, key, env.expectedKey) ==>
                && events == CollectedEvents(env.param, env.decode)
                && posted == old(posted) + Replies(events, env.now, env.options, env.converters)
      ensures !Authorized(env.options, key, env.expectedKey) ==>
                events == old(events) && posted == old(posted)
    {
      if !Truthy(env.options.repliesViaEmailEnable) {
        return;
      }
      if env.options.handler != "mandrill" {
        return;
      }
      if key != env.expectedKey {
        return;
      }
      CollectEvents(env.param, env.decode);
      ProcessEvents(env.now, env.options, env.converters);
    }

    /** `collectEvents`. */
    method CollectEvents(p: EventsParam, decode: Decoder)
      modifies this`events
      ensures events == CollectedEvents(p, decode)
    {
      events := [];
      if !p.Text? || !Truthy(p.s) {
        return;
      }
      var decoded := decode(p.s);
      if decoded.Some? {
        events := decoded.value;
      }
    }

    /** `processEvents`: every event in order, skipping the ones the guards reject. */
    method ProcessEvents(now: int, o: RveOptions, cv: Converters)
      modifies this`posted
      ensures posted == old(posted) + Replies(events, now, o, cv)
    {
      var i := 0;
      while i < |events|
        invariant 0 <= i <= |events|
        invariant posted == old(posted) + Replies(events[..i], now, o, cv)
      {
        var e := events[i];
        assert events[..i + 1] == events[..i] + [e];
        RepliesAppend(events[..i], [e], now, o, cv);
        RepliesOfOne(e, now, o, cv);
        i := i + 1;
        if !e.Event? || e.ts.None? || e.ts.value == 0 || e.ts.value < now - StaleWindow {
          continue;
        }
        if e.kind != Some("inbound") {
          continue;
        }
        if e.msg.None? {
          continue;
        }
        MaybeProcessCommentReply(Extract(e.msg.value), o, cv);
      }
      assert events[..i] == events;
    }

    /** `maybeProcessCommentReply`: post when the pure pipeline produces arguments. */
    method MaybeProcessCommentReply(a: ReplyArgs, o: RveOptions, cv: Converters)
      modifies this`posted
      ensures posted == old(posted) + match ProcessReply(a, o, cv) case Some(p) => [p] case None => []
    {
      var r := ProcessReply(a, o, cv);
      if r.Some? {
        posted := posted + [r.value];
      }
    }
  }
}
