/**
 * The line-oriented language of Asterisk's extensions.conf, as far as the
 * generator emits it: context headers, settings, comments, blank lines,
 * `exten =>` headers and `same =>` continuations (plain or labelled), each
 * continuation carrying one dialplan application.
 *
 * The generator's output is a `seq<Line>`; `Render` turns it into the text
 * the generator returns, every line followed by a newline.
 */
module DialplanSyntax {
  import opened Wrappers
  import opened Decimal

  /** The greeting option of `VoiceMail()`: `u` (unavailable) or `b` (busy). */
  datatype Greeting = UnavailableGreeting | BusyGreeting

  /** The first argument of `Dial()`. */
  datatype DialTarget =
    | Device(extension: string)       // PJSIP/<extension>
    | ViaTrunk(number: string)        // PJSIP/<number>@trunk
    | TrunkEndpoint(trunkId: int)     // PJSIP/${EXTEN}@trunk-ep-<id>

  /** The expression inside `$[...]` of a `GotoIf()`. */
  datatype Cond =
    | StrEquals(lhs: string, rhs: string)   // "<lhs>" = "<rhs>"
    | Expr(text: string)

  datatype App =
    | NoOp(text: string)
    | Answer
    | Wait(seconds: string)
    | Set(variable: string, value: string)
    | GotoIf(cond: Cond, ifTrue: string, ifFalse: Option<string>)
    | Dial(target: DialTarget, timeout: int, options: string)
    | VoiceMail(mailbox: string, greeting: Option<Greeting>)
    | VoiceMailMain(mailbox: string)
    | Playback(sound: string)
    | Echo
    | Hangup

  datatype Line =
    | Context(name: string)                 // [name]
    | Setting(key: string, value: string)   // key=value
    | Comment(text: string)                 // ; text
    | Blank
    | Exten(pattern: string, app: App)      // exten => pattern,1,App
    | Same(app: App)                        //  same => n,App
    | SameLabelled(labelName: string, app: App) //  same => n(label),App

  function RenderTarget(t: DialTarget): string
  {
    match t
    case Device(e) => "PJSIP/" + e
    case ViaTrunk(n) => "PJSIP/" + n + "@trunk"
    case TrunkEndpoint(id) => "PJSIP/${EXTEN}@trunk-ep-" + IntToString(id)
  }

  function RenderCond(c: Cond): string
  {
    match c
    case StrEquals(l, r) => "\"" + l + "\" = \"" + r + "\""
    case Expr(t) => t
  }

  function RenderApp(a: App): string
  {
    match a
    case NoOp(t) => "NoOp(" + t + ")"
    case Answer => "Answer()"
    case Wait(s) => "Wait(" + s + ")"
    case Set(v, x) => "Set(" + v + "=" + x + ")"
    case GotoIf(c, t, f) =>
      "GotoIf($[" + RenderCond(c) + "]?" + t + (if f.Some? then ":" + f.value else "") + ")"
    case Dial(t, secs, opts) => "Dial(" + RenderTarget(t) + "," + IntToString(secs) + "," + opts + ")"
    case VoiceMail(box, g) =>
      "VoiceMail(" + box + "@default"
      + (match g case None => "" case Some(UnavailableGreeting) => ",u" case Some(BusyGreeting) => ",b")
      + ")"
    case VoiceMailMain(box) => "VoiceMailMain(" + box + "@default)"
    case Playback(s) => "Playback(" + s + ")"
    case Echo => "Echo()"
    case Hangup => "Hangup()"
  }

  function RenderLine(l: Line): string
  {
    match l
    case Context(n) => "[" + n + "]"
    case Setting(k, v) => k + "=" + v
    case Comment(t) => "; " + t
    case Blank => ""
    case Exten(p, a) => "exten => " + p + ",1," + RenderApp(a)
    case Same(a) => " same => n," + RenderApp(a)
    case SameLabelled(lbl, a) => " same => n(" + lbl + ")," + RenderApp(a)
  }

  /** The text of a document: each line, then a newline. */
  function Render(doc: seq<Line>): string
  {
    if doc == [] then "" else Render(doc[..|doc| - 1]) + RenderLine(doc[|doc| - 1]) + "\n"
  }

  /**
   * Appending lines appends their text: the line sequence and the source's
   * `config += ...` build the same string.
   */
  lemma {:induction false} RenderConcat(a: seq<Line>, b: seq<Line>)
    ensures Render(a + b) == Render(a) + Render(b)
    decreases |b|
  {
    if b == [] {
      assert a + b == a;
    } else {
      var front, last := b[..|b| - 1], b[|b| - 1];
      assert b == front + [last];
      assert a + b == (a + front) + [last];
      RenderSnoc(a + front, last);
      RenderSnoc(front, last);
      RenderConcat(a, front);
      ConcatAssoc(Render(a), Render(front), RenderLine(last) + "\n");
    }
  }

  lemma RenderSnoc(doc: seq<Line>, l: Line)
    ensures Render(doc + [l]) == Render(doc) + (RenderLine(l) + "\n")
  {
    assert (doc + [l])[..|doc|] == doc;
  }

  lemma ConcatAssoc(x: string, y: string, z: string)
    ensures (x + y) + z == x + (y + z)
  {
  }

  /** A non-empty document's text ends with a newline. */
  lemma RenderEndsWithNewline(doc: seq<Line>)
    requires doc != []
    ensures |Render(doc)| > 0 && Render(doc)[|Render(doc)| - 1] == '\n'
  {
  }

  /** Distinct trunk ids dial distinct endpoints `trunk-ep-<id>`. */
  lemma TrunkEndpointsDistinct(a: int, b: int)
    requires a != b
    ensures RenderTarget(TrunkEndpoint(a)) != RenderTarget(TrunkEndpoint(b))
  {
    var prefix := "PJSIP/${EXTEN}@trunk-ep-";
    if RenderTarget(TrunkEndpoint(a)) == RenderTarget(TrunkEndpoint(b)) {
      assert (prefix + IntToString(a))[|prefix|..] == IntToString(a);
      assert (prefix + IntToString(b))[|prefix|..] == IntToString(b);
      IntToStringInjective(a, b);
    }
  }

  /** The application a line runs, if it is an extension line. */
  function AppOf(l: Line): (r: Option<App>)
    ensures r.Some? <==> (l.Exten? || l.Same? || l.SameLabelled?)
  {
    match l
    case Exten(_, a) => Some(a)
    case Same(a) => Some(a)
    case SameLabelled(_, a) => Some(a)
    case _ => None
  }

  /** How many lines of `doc` run the application `a`. */
  function AppCount(doc: seq<Line>, a: App): nat
  {
    if doc == [] then 0
    else (if AppOf(doc[0]) == Some(a) then 1 else 0) + AppCount(doc[1..], a)
  }

  lemma {:induction false} AppCountConcat(x: seq<Line>, y: seq<Line>, a: App)
    ensures AppCount(x + y, a) == AppCount(x, a) + AppCount(y, a)
    decreases |x|
  {
    if x != [] {
      assert (x + y)[0] == x[0] && (x + y)[1..] == x[1..] + y;
      AppCountConcat(x[1..], y, a);
    } else {
      assert x + y == y;
    }
  }

  lemma {:induction false} AppCountZero(doc: seq<Line>, a: App)
    requires forall l :: l in doc ==> AppOf(l) != Some(a)
    ensures AppCount(doc, a) == 0
    decreases |doc|
  {
    if doc != [] {
      assert doc[0] in doc;
      assert forall l :: l in doc[1..] ==> l in doc;
      AppCountZero(doc[1..], a);
    }
  }

  /** A line running `a` between two stretches that do not: `a` runs once. */
  lemma AppCountOne(before: seq<Line>, l: Line, after: seq<Line>, a: App)
    requires AppOf(l) == Some(a)
    requires forall m :: m in before ==> AppOf(m) != Some(a)
    requires forall m :: m in after ==> AppOf(m) != Some(a)
    ensures AppCount(before + [l] + after, a) == 1
  {
    AppCountZero(before, a);
    AppCountZero(after, a);
    AppCountConcat(before, [l], a);
    AppCountConcat(before + [l], after, a);
    assert AppCount([l], a) == 1 by {
      assert [l][1..] == [];
    }
  }

  /** The patterns of the `exten =>` headers of `doc`, in order. */
  function ExtenPatterns(doc: seq<Line>): seq<string>
  {
    if doc == [] then []
    else (if doc[0].Exten? then [doc[0].pattern] else []) + ExtenPatterns(doc[1..])
  }

  lemma {:induction false} ExtenPatternsConcat(x: seq<Line>, y: seq<Line>)
    ensures ExtenPatterns(x + y) == ExtenPatterns(x) + ExtenPatterns(y)
    decreases |x|
  {
    if x != [] {
      assert (x + y)[0] == x[0] && (x + y)[1..] == x[1..] + y;
      ExtenPatternsConcat(x[1..], y);
    } else {
      assert x + y == y;
    }
  }

  /** The names of the `[context]` headers of `doc`, in order. */
  function ContextNames(doc: seq<Line>): seq<string>
  {
    if doc == [] then []
    else (if doc[0].Context? then [doc[0].name] else []) + ContextNames(doc[1..])
  }

  lemma {:induction false} ContextNamesConcat(x: seq<Line>, y: seq<Line>)
    ensures ContextNames(x + y) == ContextNames(x) + ContextNames(y)
    decreases |x|
  {
    if x != [] {
      assert (x + y)[0] == x[0] && (x + y)[1..] == x[1..] + y;
      ContextNamesConcat(x[1..], y);
    } else {
      assert x + y == y;
    }
  }

  /** Lines that only continue an extension: no header, no context, no comment. */
  predicate AllContinuations(doc: seq<Line>)
  {
    forall l :: l in doc ==> l.Same? || l.SameLabelled?
  }

  /** A stretch without `exten =>` headers and `[context]` headers contributes neither. */
  lemma {:induction false} NoHeaders(doc: seq<Line>)
    requires forall l :: l in doc ==> !l.Exten? && !l.Context?
    ensures ExtenPatterns(doc) == [] && ContextNames(doc) == []
    decreases |doc|
  {
    if doc != [] {
      assert doc[0] in doc;
      assert forall l :: l in doc[1..] ==> l in doc;
      NoHeaders(doc[1..]);
    }
  }

  /** What one line contributes to the header lists and to an application count. */
  lemma SingleLine(l: Line, a: App)
    ensures ExtenPatterns([l]) == (if l.Exten? then [l.pattern] else [])
    ensures ContextNames([l]) == (if l.Context? then [l.name] else [])
    ensures AppCount([l], a) == (if AppOf(l) == Some(a) then 1 else 0)
  {
    assert [l][1..] == [];
  }

  /**
   * A block whose only header is `h`: its header lists are those of `h`, and
   * it runs `a` as often as its parts do.
   */
  lemma OneHeader(before: seq<Line>, h: Line, after: seq<Line>, a: App)
    requires forall l :: l in before ==> !l.Exten? && !l.Context?
    requires forall l :: l in after ==> !l.Exten? && !l.Context?
    ensures ExtenPatterns(before + [h] + after) == (if h.Exten? then [h.pattern] else [])
    ensures ContextNames(before + [h] + after) == (if h.Context? then [h.name] else [])
    ensures AppCount(before + [h] + after, a)
            == AppCount(before, a) + (if AppOf(h) == Some(a) then 1 else 0) + AppCount(after, a)
  {
    NoHeaders(before);
    NoHeaders(after);
    SingleLine(h, a);
    ExtenPatternsConcat(before, [h]);
    ExtenPatternsConcat(before + [h], after);
    ContextNamesConcat(before, [h]);
    ContextNamesConcat(before + [h], after);
    AppCountConcat(before, [h], a);
    AppCountConcat(before + [h], after, a);
  }

  /** The same, for the header at position `i` of a block. */
  lemma HeaderAt(doc: seq<Line>, i: nat, a: App)
    requires i < |doc|
    requires forall j :: 0 <= j < |doc| && j != i ==> !doc[j].Exten? && !doc[j].Context?
    ensures ExtenPatterns(doc) == (if doc[i].Exten? then [doc[i].pattern] else [])
    ensures ContextNames(doc) == (if doc[i].Context? then [doc[i].name] else [])
    ensures AppCount(doc, a)
            == AppCount(doc[..i], a) + (if AppOf(doc[i]) == Some(a) then 1 else 0) + AppCount(doc[i + 1..], a)
  {
    assert doc == doc[..i] + [doc[i]] + doc[i + 1..];
    forall l | l in doc[..i] ensures !l.Exten? && !l.Context? {
      var j :| 0 <= j < i && doc[..i][j] == l;
      assert doc[j] == l;
    }
    forall l | l in doc[i + 1..] ensures !l.Exten? && !l.Context? {
      var j :| 0 <= j < |doc| - i - 1 && doc[i + 1..][j] == l;
      assert doc[i + 1 + j] == l;
    }
    OneHeader(doc[..i], doc[i], doc[i + 1..], a);
  }
}
