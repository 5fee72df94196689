/** The welcome text's HTML filter: a stack machine over the parser's events. */
module Welcome {
  import opened Basics

  datatype Attribute = Attribute(name: string, value: Option<string>)

  /** What the HTML parser reports. */
  datatype Event =
    | StartTag(tag: string, attributes: seq<Attribute>)
    | EndTag(tag: string)
    | Data(text: string)
    | EntityRef(name: string)
    | CharRef(name: string)

  /** The library functions the filter uses: case folding, and whether a link is a plain HTTPS
      URL with a host and without credentials. */
  datatype Rules = Rules(fold: string -> string, safe: string -> bool)

  const SIMPLE_TAGS: set<string> := {"b", "strong", "i", "em", "u", "ins", "s", "strike", "del", "code", "pre"}

  datatype WelcomeError = UnsafeLink | UnsupportedTag | NotNested | NotClosed

  // ---------------------------------------------------------------------------
  // Escaping

  function EscapeChar(c: char, quote: bool): string {
    if c == '&' then "&amp;"
    else if c == '<' then "&lt;"
    else if c == '>' then "&gt;"
    else if quote && c == '"' then "&quot;"
    else if quote && c == '\'' then "&#x27;"
    else [c]
  }

  function Escape(s: string, quote: bool): string {
    if s == "" then "" else EscapeChar(s[0], quote) + Escape(s[1..], quote)
  }

  /** The output's reader: the five entities that escaping writes, other characters as they are. */
  function Unescape(s: string): string {
    if s == "" then ""
    else if "&amp;" <= s then "&" + Unescape(s[5..])
    else if "&lt;" <= s then "<" + Unescape(s[4..])
    else if "&gt;" <= s then ">" + Unescape(s[4..])
    else if "&quot;" <= s then "\"" + Unescape(s[6..])
    else if "&#x27;" <= s then "'" + Unescape(s[6..])
    else [s[0]] + Unescape(s[1..])
  }

  /** Escaped text shows no angle bracket, and in an attribute no quote either. */
  lemma {:induction false} EscapedIsClean(s: string, quote: bool)
    ensures forall i :: 0 <= i < |Escape(s, quote)| ==>
              var c := Escape(s, quote)[i]; c != '<' && c != '>' && (quote ==> c != '"' && c != '\'')
  {
    if s != "" {
      EscapedIsClean(s[1..], quote);
    }
  }

  lemma UnescapeEntity(entity: string, rest: string)
    requires entity in {"&amp;", "&lt;", "&gt;", "&quot;", "&#x27;"}
    ensures Unescape(entity + rest) ==
              (if entity == "&amp;" then "&" else if entity == "&lt;" then "<" else if entity == "&gt;" then ">"
               else if entity == "&quot;" then "\"" else "'") + Unescape(rest)
  {
    var s := entity + rest;
    assert s[..|entity|] == entity && s[|entity|..] == rest && s[1] == entity[1];
    assert "&amp;"[1] == 'a' && "&lt;"[1] == 'l' && "&gt;"[1] == 'g' && "&quot;"[1] == 'q' && "&#x27;"[1] == '#';
  }

  lemma UnescapeOther(c: char, rest: string)
    requires c != '&'
    ensures Unescape([c] + rest) == [c] + Unescape(rest)
  {
    assert ([c] + rest)[0] == c && ([c] + rest)[1..] == rest;
  }

  lemma UnescapeChar(c: char, quote: bool, rest: string)
    ensures Unescape(EscapeChar(c, quote) + rest) == [c] + Unescape(rest)
  {
    hide Unescape;
    if |EscapeChar(c, quote)| == 1 {
      UnescapeOther(c, rest);
    } else {
      UnescapeEntity(EscapeChar(c, quote), rest);
    }
  }

  /** Escaping is undone by unescaping, whatever follows. */
  lemma {:induction false} EscapeRoundTrip(s: string, quote: bool, rest: string)
    ensures Unescape(Escape(s, quote) + rest) == s + Unescape(rest)
  {
    hide Unescape, EscapeChar;
    if s == "" {
      assert Escape(s, quote) + rest == rest && s + Unescape(rest) == Unescape(rest);
    } else {
      var tail := Escape(s[1..], quote);
      assert Escape(s, quote) + rest == EscapeChar(s[0], quote) + (tail + rest);
      UnescapeChar(s[0], quote, tail + rest);
      EscapeRoundTrip(s[1..], quote, rest);
      assert [s[0]] + (s[1..] + Unescape(rest)) == s + Unescape(rest);
    }
  }

  lemma {:induction false} EscapeConcat(a: string, b: string, quote: bool)
    ensures Escape(a + b, quote) == Escape(a, quote) + Escape(b, quote)
  {
    if a == "" {
      assert a + b == b;
    } else {
      hide EscapeChar;
      EscapeConcat(a[1..], b, quote);
      assert (a + b)[0] == a[0] && (a + b)[1..] == a[1..] + b;
      Regroup3(EscapeChar(a[0], quote), Escape(a[1..], quote), Escape(b, quote));
    }
  }

  // ---------------------------------------------------------------------------
  // The handlers

  /** What an accepted event means. */
  datatype Mark = Simple(tag: string) | Link(href: string)

  datatype Token = Open(mark: Mark) | Close(tag: string) | Words(text: string)

  function TagOf(m: Mark): string {
    match m
    case Simple(tag) => tag
    case Link(_) => "a"
  }

  predicate Allowed(rules: Rules, m: Mark) {
    match m
    case Simple(tag) => tag in SIMPLE_TAGS
    case Link(href) => rules.safe(href)
  }

  /** Meaning of a start tag, or the reason to refuse it. */
  function MarkOf(rules: Rules, tag: string, attributes: seq<Attribute>): Result<Mark, WelcomeError> {
    var name := rules.fold(tag);
    if name in SIMPLE_TAGS && attributes == [] then Ok(Simple(name))
    else if name == "a" && |attributes| == 1 && rules.fold(attributes[0].name) == "href" then
      var href := if attributes[0].value.Some? then attributes[0].value.value else "";
      if rules.safe(href) then Ok(Link(href)) else Err(UnsafeLink)
    else Err(UnsupportedTag)
  }

  /** Which start tags are accepted: eleven plain ones without attributes, and links with one
      attribute, a safe address. */
  lemma MarkAcceptedIff(rules: Rules, tag: string, attributes: seq<Attribute>)
    ensures var m, name := MarkOf(rules, tag, attributes), rules.fold(tag);
            var link := name == "a" && |attributes| == 1 && rules.fold(attributes[0].name) == "href";
            var plain := attributes == [] && (name == "b" || name == "strong" || name == "i" || name == "em"
              || name == "u" || name == "ins" || name == "s" || name == "strike" || name == "del" || name == "code"
              || name == "pre");
            && (plain ==> m == Ok(Simple(name)))
            && (link ==>
                  var href := if attributes[0].value == None then "" else attributes[0].value.value;
                  m == if rules.safe(href) then Ok(Link(href)) else Err(UnsafeLink))
            && (!plain && !link ==> m == Err(UnsupportedTag))
  {
  }

  /** What escaping writes for each character. */
  lemma EscapedAs(c: char, quote: bool)
    ensures EscapeChar('&', quote) == "&amp;" && EscapeChar('<', quote) == "&lt;" && EscapeChar('>', quote) == "&gt;"
    ensures EscapeChar('"', true) == "&quot;" && EscapeChar('\'', true) == "&#x27;"
    ensures c != '&' && c != '<' && c != '>' && (quote ==> c != '"' && c != '\'') ==> EscapeChar(c, quote) == [c]
  {
  }

  function TokenOf(rules: Rules, e: Event): Result<Token, WelcomeError> {
    match e
    case StartTag(tag, attributes) =>
      var m := MarkOf(rules, tag, attributes);
      if m.Ok? then Ok(Open(m.value)) else Err(m.error)
    case EndTag(tag) => Ok(Close(rules.fold(tag)))
    case Data(text) => Ok(Words(text))
    case EntityRef(name) => Ok(Words("&" + name + ";"))
    case CharRef(name) => Ok(Words("&#" + name + ";"))
  }

  function RenderOne(t: Token): string {
    match t
    case Open(Simple(tag)) => "<" + tag + ">"
    case Open(Link(href)) => "<a href=\"" + Escape(href, true) + "\">"
    case Close(tag) => "</" + tag + ">"
    case Words(text) => Escape(text, false)
  }

  function Render(tokens: seq<Token>): string {
    if tokens == [] then "" else RenderOne(tokens[0]) + Render(tokens[1..])
  }

  /** The open tags after one token, if it may come here. */
  function Push(stack: seq<string>, t: Token): Option<seq<string>> {
    match t
    case Open(m) => Some(stack + [TagOf(m)])
    case Close(tag) => if stack != [] && stack[|stack| - 1] == tag then Some(stack[..|stack| - 1]) else None
    case Words(_) => Some(stack)
  }

  function PushAll(stack: seq<string>, tokens: seq<Token>): Option<seq<string>>
    decreases tokens
  {
    if tokens == [] then Some(stack)
    else
      var next := Push(stack, tokens[0]);
      if next.None? then None else PushAll(next.value, tokens[1..])
  }

  class Sanitizer {
    const rules: Rules
    var output: string
    var stack: seq<string>

    constructor (rules: Rules)
      ensures this.rules == rules && output == "" && stack == []
    {
      this.rules := rules;
      output, stack := "", [];
    }

    /** One parser event: the handler refuses it or writes its token and follows the nesting. */
    method Handle(e: Event) returns (r: Option<WelcomeError>)
      modifies this
      ensures var t := TokenOf(rules, e);
              if t.Err? then r == Some(t.error) && output == old(output) && stack == old(stack)
              else if Push(old(stack), t.value).None?
              then r == Some(NotNested) && output == old(output) && stack == old(stack)
              else r == None && Some(stack) == Push(old(stack), t.value) && output == old(output) + RenderOne(t.value)
    {
      match e
      case StartTag(tag, attributes) => r := HandleStartTag(tag, attributes);
      case EndTag(tag) => r := HandleEndTag(tag);
      case Data(text) => output := output + Escape(text, false); r := None;
      case EntityRef(name) => output := output + Escape("&" + name + ";", false); r := None;
      case CharRef(name) => output := output + Escape("&#" + name + ";", false); r := None;
    }

    method HandleStartTag(tag: string, attributes: seq<Attribute>) returns (r: Option<WelcomeError>)
      modifies this
      ensures var m := MarkOf(rules, tag, attributes);
              if m.Err? then r == Some(m.error) && output == old(output) && stack == old(stack)
              else r == None && stack == old(stack) + [TagOf(m.value)]
                   && output == old(output) + RenderOne(Open(m.value))
    {
      var name := rules.fold(tag);
      if name in SIMPLE_TAGS && attributes == [] {
        output := output + ("<" + name + ">");
      } else if name == "a" && |attributes| == 1 && rules.fold(attributes[0].name) == "href" {
        var href := if attributes[0].value.Some? then attributes[0].value.value else "";
        if !rules.safe(href) { return Some(UnsafeLink); }
        output := output + ("<a href=\"" + Escape(href, true) + "\">");
      } else {
        return Some(UnsupportedTag);
      }
      stack := stack + [name];
      r := None;
    }

    method HandleEndTag(tag: string) returns (r: Option<WelcomeError>)
      modifies this
      ensures var name := rules.fold(tag);
              if Push(old(stack), Close(name)).None?
              then r == Some(NotNested) && output == old(output) && stack == old(stack)
              else r == None && Some(stack) == Push(old(stack), Close(name))
                   && output == old(output) + RenderOne(Close(name))
    {
      var name := rules.fold(tag);
      if stack == [] || stack[|stack| - 1] != name { return Some(NotNested); }
      stack := stack[..|stack| - 1];
      output := output + ("</" + name + ">");
      r := None;
    }
  }

  // ---------------------------------------------------------------------------
  // A whole message

  /** The tokens of the events, unless a handler refuses one. */
  function Tokens(rules: Rules, events: seq<Event>): Result<seq<Token>, WelcomeError> {
    if events == [] then Ok([])
    else
      var first := TokenOf(rules, events[0]);
      var rest := Tokens(rules, events[1..]);
      if first.Err? then Err(first.error) else if rest.Err? then Err(rest.error) else Ok([first.value] + rest.value)
  }

  /** A properly nested message. */
  datatype Forest = Nil | Text(text: string, next: Forest) | Element(mark: Mark, inside: Forest, next: Forest)

  function Flatten(f: Forest): seq<Token> {
    match f
    case Nil => []
    case Text(text, next) => [Words(text)] + Flatten(next)
    case Element(mark, inside, next) => [Open(mark)] + Flatten(inside) + [Close(TagOf(mark))] + Flatten(next)
  }

  lemma {:induction false} PushAllConcat(stack: seq<string>, a: seq<Token>, b: seq<Token>)
    requires PushAll(stack, a).Some?
    ensures PushAll(stack, a + b) == PushAll(PushAll(stack, a).value, b)
    decreases a
  {
    if a == [] {
      assert a + b == b;
    } else {
      PushAllConcat(Push(stack, a[0]).value, a[1..], b);
      assert (a + b)[1..] == a[1..] + b;
    }
  }

  lemma PushFirst(stack: seq<string>, t: Token, rest: seq<Token>)
    ensures Push(stack, t).Some? ==> PushAll(stack, [t] + rest) == PushAll(Push(stack, t).value, rest)
  {
    assert ([t] + rest)[1..] == rest;
  }

  lemma ElementIsAccepted(stack: seq<string>, mark: Mark, inside: seq<Token>, next: seq<Token>)
    requires PushAll(stack + [TagOf(mark)], inside) == Some(stack + [TagOf(mark)])
             && PushAll(stack, next) == Some(stack)
    ensures PushAll(stack, [Open(mark)] + inside + [Close(TagOf(mark))] + next) == Some(stack)
  {
    var inner := stack + [TagOf(mark)];
    var rest := [Close(TagOf(mark))] + next;
    assert inner[..|inner| - 1] == stack;
    assert [Open(mark)] + inside + [Close(TagOf(mark))] + next == [Open(mark)] + (inside + rest);
    hide PushAll;
    PushFirst(stack, Open(mark), inside + rest);
    PushAllConcat(inner, inside, rest);
    PushFirst(inner, Close(TagOf(mark)), next);
  }

  /** A nested message leaves the stack as it found it. */
  lemma {:induction false} NestedIsAccepted(stack: seq<string>, f: Forest)
    ensures PushAll(stack, Flatten(f)) == Some(stack)
    decreases f
  {
    match f
    case Nil =>
    case Text(text, next) =>
      NestedIsAccepted(stack, next);
      PushFirst(stack, Words(text), Flatten(next));
    case Element(mark, inside, next) =>
      NestedIsAccepted(stack + [TagOf(mark)], inside);
      NestedIsAccepted(stack, next);
      ElementIsAccepted(stack, mark, Flatten(inside), Flatten(next));
  }

  /** Messages between the closing tags that are still due: `fs[0]`, the top tag's closing,
      `fs[1]`, and so on. */
  function Spine(stack: seq<string>, fs: seq<Forest>): seq<Token>
    requires |fs| == |stack| + 1
    decreases stack
  {
    if stack == [] then Flatten(fs[0])
    else Flatten(fs[0]) + [Close(stack[|stack| - 1])] + Spine(stack[..|stack| - 1], fs[1..])
  }

  lemma Regroup<T>(a: seq<T>, b: seq<T>, c: seq<T>, d: seq<T>)
    ensures (a + b) + c + d == a + (b + c + d)
  {
  }

  lemma SpineFirst(stack: seq<string>, fs: seq<Forest>, f: Forest, head: seq<Token>)
    requires |fs| == |stack| + 1 && Flatten(f) == head + Flatten(fs[0])
    ensures Spine(stack, fs[0 := f]) == head + Spine(stack, fs)
  {
    hide Flatten;
    if stack != [] {
      assert fs[0 := f][1..] == fs[1..];
      var closing, rest := [Close(stack[|stack| - 1])], Spine(stack[..|stack| - 1], fs[1..]);
      Regroup(head, Flatten(fs[0]), closing, rest);
    }
  }

  /** Whatever the stack machine accepts to the end is such a sequence of messages. */
  lemma {:induction false} AcceptedIsNested(stack: seq<string>, tokens: seq<Token>) returns (fs: seq<Forest>)
    requires PushAll(stack, tokens) == Some([])
    ensures |fs| == |stack| + 1 && Spine(stack, fs) == tokens
    decreases tokens
  {
    if tokens == [] {
      fs := [Nil];
    } else {
      var rest := tokens[1..];
      assert tokens == [tokens[0]] + rest;
      match tokens[0]
      case Words(text) =>
        var gs := AcceptedIsNested(stack, rest);
        var f := Text(text, gs[0]);
        SpineFirst(stack, gs, f, [Words(text)]);
        fs := gs[0 := f];
      case Close(tag) =>
        var gs := AcceptedIsNested(stack[..|stack| - 1], rest);
        fs := [Nil] + gs;
        assert fs[1..] == gs;
      case Open(mark) =>
        var inner := stack + [TagOf(mark)];
        var gs := AcceptedIsNested(inner, rest);
        assert inner[..|inner| - 1] == stack;
        fs := OpenedSpine(stack, mark, gs);
    }
  }

  lemma OpenedSpine(stack: seq<string>, mark: Mark, gs: seq<Forest>) returns (fs: seq<Forest>)
    requires |gs| == |stack| + 2
    ensures |fs| == |stack| + 1
    ensures Spine(stack, fs) == [Open(mark)] + Spine(stack + [TagOf(mark)], gs)
  {
    var inner := stack + [TagOf(mark)];
    assert inner[..|inner| - 1] == stack;
    var tail := gs[1..];
    var f := Element(mark, gs[0], tail[0]);
    var head := [Open(mark)] + Flatten(gs[0]) + [Close(TagOf(mark))];
    SpineFirst(stack, tail, f, head);
    fs := tail[0 := f];
    assert head + Spine(stack, tail) == [Open(mark)] + (Flatten(gs[0]) + [Close(TagOf(mark))] + Spine(stack, tail));
  }

  /** The machine ends with an empty stack exactly on properly nested messages. */
  lemma AcceptedIffNested(tokens: seq<Token>)
    ensures PushAll([], tokens) == Some([]) <==> exists f :: Flatten(f) == tokens
  {
    if PushAll([], tokens) == Some([]) {
      var fs := AcceptedIsNested([], tokens);
      assert Flatten(fs[0]) == tokens;
    }
    if f :| Flatten(f) == tokens {
      NestedIsAccepted([], f);
    }
  }

  predicate AllowedToken(rules: Rules, t: Token) { t.Open? ==> Allowed(rules, t.mark) }

  /** Only allowed tags and safe links get through. */
  lemma {:induction false} TokensAreAllowed(rules: Rules, events: seq<Event>)
    requires Tokens(rules, events).Ok?
    ensures |Tokens(rules, events).value| == |events|
    ensures forall t :: t in Tokens(rules, events).value ==> AllowedToken(rules, t)
  {
    if events != [] {
      TokensAreAllowed(rules, events[1..]);
    }
  }

  /** The events are accepted: each by its handler, and all tags closed in order. */
  predicate Accepted(rules: Rules, events: seq<Event>) {
    Tokens(rules, events).Ok? && PushAll([], Tokens(rules, events).value) == Some([])
  }

  /** The handlers one after another: output and open tags, or the first refusal. */
  function Feed(rules: Rules, output: string, stack: seq<string>, events: seq<Event>)
    : Result<(string, seq<string>), WelcomeError>
    decreases events
  {
    if events == [] then Ok((output, stack))
    else
      var t := TokenOf(rules, events[0]);
      if t.Err? then Err(t.error)
      else
        var next := Push(stack, t.value);
        if next.None? then Err(NotNested) else Feed(rules, output + RenderOne(t.value), next.value, events[1..])
  }

  lemma {:induction false} FeedIsPushAll(rules: Rules, output: string, stack: seq<string>, events: seq<Event>)
    ensures var tokens := Tokens(rules, events);
            Feed(rules, output, stack, events).Ok? <==> tokens.Ok? && PushAll(stack, tokens.value).Some?
    ensures Feed(rules, output, stack, events).Ok? ==>
              Feed(rules, output, stack, events).value ==
                (output + Render(Tokens(rules, events).value), PushAll(stack, Tokens(rules, events).value).value)
    decreases events
  {
    if events == [] {
      assert output + "" == output;
    } else {
      var t := TokenOf(rules, events[0]);
      if t.Ok? && Push(stack, t.value).Some? {
        FeedIsPushAll(rules, output + RenderOne(t.value), Push(stack, t.value).value, events[1..]);
        FirstToken(rules, events);
        Regroup3(output, RenderOne(t.value),
                 if Tokens(rules, events[1..]).Ok? then Render(Tokens(rules, events[1..]).value) else "");
      } else {
        FirstRefused(rules, stack, events);
      }
    }
  }

  lemma FirstToken(rules: Rules, events: seq<Event>)
    requires events != [] && TokenOf(rules, events[0]).Ok?
    ensures var t, rest := TokenOf(rules, events[0]).value, Tokens(rules, events[1..]);
            && (Tokens(rules, events).Ok? <==> rest.Ok?)
            && (rest.Ok? ==> Tokens(rules, events).value[0] == t && Tokens(rules, events).value[1..] == rest.value)
  {
  }

  lemma FirstRefused(rules: Rules, stack: seq<string>, events: seq<Event>)
    requires events != [] && (TokenOf(rules, events[0]).Err? || Push(stack, TokenOf(rules, events[0]).value).None?)
    ensures Tokens(rules, events).Ok? ==> PushAll(stack, Tokens(rules, events).value).None?
  {
  }

  lemma Regroup3(a: string, b: string, c: string)
    ensures (a + b) + c == a + (b + c)
  {
  }

  /** Feeding the events and closing the parser: what comes out, if anything, is the rendering
      of a properly nested message of allowed tags and safe links. */
  method Sanitize(rules: Rules, events: seq<Event>) returns (r: Result<string, WelcomeError>)
    ensures r.Ok? <==> Accepted(rules, events)
    ensures r.Ok? ==> r.value == Render(Tokens(rules, events).value)
    ensures r.Err? ==>
              r.error == if Feed(rules, "", [], events).Err? then Feed(rules, "", [], events).error else NotClosed
  {
    var sanitizer := new Sanitizer(rules);
    FeedIsPushAll(rules, "", [], events);
    for i := 0 to |events|
      invariant sanitizer.rules == rules
      invariant Feed(rules, "", [], events) == Feed(rules, sanitizer.output, sanitizer.stack, events[i..])
    {
      assert events[i..][1..] == events[i + 1..];
      var refused := sanitizer.Handle(events[i]);
      if refused.Some? { return Err(refused.value); }
    }
    if sanitizer.stack != [] { return Err(NotClosed); }
    return Ok(sanitizer.output);
  }

  // ---------------------------------------------------------------------------
  // Reading the output back

  /** Position of the character, or the length of the string. */
  function Find(s: string, c: char): (i: nat)
    ensures i <= |s| && (i < |s| ==> s[i] == c) && forall k :: 0 <= k < i ==> s[k] != c
  {
    if s == "" || s[0] == c then 0 else 1 + Find(s[1..], c)
  }

  function ReadTag(body: string): Token {
    if "/" <= body then Close(body[1..])
    else if "a href=\"" <= body && |body| > 8 then Open(Link(Unescape(body[8..|body| - 1])))
    else Open(Simple(body))
  }

  /** A reader for the filter's own output. */
  function Read(s: string): Option<seq<Token>>
    decreases |s|
  {
    if s == "" then Some([])
    else if s[0] == '<' then
      var end := Find(s, '>');
      if end == |s| then None
      else
        var rest := Read(s[end + 1..]);
        if rest.None? then None else Some([ReadTag(s[1..end])] + rest.value)
    else
      var end := Find(s, '<');
      var rest := Read(s[end..]);
      if rest.None? then None else Some([Words(Unescape(s[..end]))] + rest.value)
  }

  /** Adjacent texts are one text, and empty ones none. */
  function Merge(tokens: seq<Token>): seq<Token> {
    if tokens == [] then []
    else if tokens[0].Words? then Prepend(tokens[0].text, Merge(tokens[1..]))
    else [tokens[0]] + Merge(tokens[1..])
  }

  function Prepend(text: string, tokens: seq<Token>): seq<Token> {
    if text == "" then tokens
    else if tokens != [] && tokens[0].Words? then [Words(text + tokens[0].text)] + tokens[1..]
    else [Words(text)] + tokens
  }

  lemma FindUnique(s: string, c: char, i: nat)
    requires i <= |s| && (i < |s| ==> s[i] == c) && forall k :: 0 <= k < i ==> s[k] != c
    ensures Find(s, c) == i
  {
  }

  /** A stretch without brackets, followed by markup or nothing, is one text. */
  lemma ReadLastText(e: string, s: string)
    requires e != "" && (forall k :: 0 <= k < |e| ==> e[k] != '<') && Read(s).Some? && (s == "" || s[0] == '<')
    ensures Read(e + s) == Some([Words(Unescape(e))] + Read(s).value)
  {
    hide Unescape;
    var all := e + s;
    FindUnique(all, '<', |e|);
    assert all[..|e|] == e && all[|e|..] == s && all[0] == e[0];
  }

  lemma ReadText(s: string, end: nat)
    requires s != "" && s[0] != '<' && end == Find(s, '<')
    ensures Read(s) == if Read(s[end..]).None? then None else Some([Words(Unescape(s[..end]))] + Read(s[end..]).value)
  {
  }

  lemma FindAfter(e: string, s: string, c: char)
    requires forall k :: 0 <= k < |e| ==> e[k] != c
    ensures Find(e + s, c) == |e| + Find(s, c)
  {
    FindUnique(e + s, c, |e| + Find(s, c));
  }

  /** The same before a text: the two are read as one. */
  lemma ReadMoreText(e: string, s: string)
    requires e != "" && (forall k :: 0 <= k < |e| ==> e[k] != '<') && Read(s).Some? && s != "" && s[0] != '<'
    ensures var end := Find(s, '<');
            && Read(s[end..]).Some?
            && Read(s).value == [Words(Unescape(s[..end]))] + Read(s[end..]).value
            && Read(e + s) == Some([Words(Unescape(e + s[..end]))] + Read(s[end..]).value)
  {
    hide Unescape, Read, Find;
    var end := Find(s, '<');
    ReadText(s, end);
    FindAfter(e, s, '<');
    ReadText(e + s, |e| + end);
    assert (e + s)[..|e| + end] == e + s[..end] && (e + s)[|e| + end..] == s[end..];
  }

  lemma ReadStartsWith(s: string)
    requires Read(s).Some?
    ensures (s == "" || s[0] == '<') ==> Read(s).value == [] || !Read(s).value[0].Words?
  {
  }

  /** Text that goes before what was read is read as text. */
  lemma ReadWords(text: string, s: string)
    requires text != "" && Read(s).Some?
    ensures Read(Escape(text, false) + s) == Some(Prepend(text, Read(s).value))
  {
    var e := Escape(text, false);
    EscapedIsClean(text, false);
    assert e != "";
    ReadStartsWith(s);
    hide Read, Escape, Unescape, Find;
    if s == "" || s[0] == '<' {
      ReadLastText(e, s);
      Unescaped(text, false);
    } else {
      var end := Find(s, '<');
      ReadMoreText(e, s);
      EscapeRoundTrip(text, false, s[..end]);
    }
  }

  lemma Unescaped(text: string, quote: bool)
    ensures Unescape(Escape(text, quote)) == text
  {
    EscapeRoundTrip(text, quote, "");
    assert Escape(text, quote) + "" == Escape(text, quote) && text + "" == text;
  }

  /** A tag, from its first character to its last. */
  lemma ReadMarkup(body: string, s: string)
    requires Read(s).Some? && forall k :: 0 <= k < |body| ==> body[k] != '>'
    ensures Read("<" + body + ">" + s) == Some([ReadTag(body)] + Read(s).value)
  {
    var all := "<" + body + ">" + s;
    FindUnique(all, '>', |body| + 1);
    assert all[1..|body| + 1] == body && all[|body| + 2..] == s;
  }

  /** The token is one the filter can write. */
  predicate Writable(t: Token) {
    match t
    case Open(Simple(tag)) => tag in SIMPLE_TAGS
    case Open(Link(_)) => true
    case Close(tag) => tag in SIMPLE_TAGS || tag == "a"
    case Words(_) => true
  }

  predicate Plain(tag: string) {
    tag != "" && tag[0] != '/' && (|tag| > 1 ==> tag[1] != ' ') && forall k :: 0 <= k < |tag| ==> tag[k] != '>'
  }

  lemma TagsArePlain(tag: string)
    requires tag in SIMPLE_TAGS || tag == "a"
    ensures Plain(tag)
  {
  }

  lemma ReadOpen(tag: string, s: string)
    requires Plain(tag) && Read(s).Some?
    ensures Read("<" + tag + ">" + s) == Some([Open(Simple(tag))] + Read(s).value)
  {
    hide Read, Find, Unescape;
    ReadMarkup(tag, s);
  }

  lemma ReadClose(tag: string, s: string)
    requires Plain(tag) && Read(s).Some?
    ensures Read("</" + tag + ">" + s) == Some([Close(tag)] + Read(s).value)
  {
    hide Read, Find, Unescape;
    var body := "/" + tag;
    ReadMarkup(body, s);
    assert body[1..] == tag && "/" <= body;
    assert "</" + tag == "<" + body;
  }

  lemma ReadLink(href: string, s: string)
    requires Read(s).Some?
    ensures Read("<a href=\"" + Escape(href, true) + "\">" + s) == Some([Open(Link(href))] + Read(s).value)
  {
    EscapedIsClean(href, true);
    Unescaped(href, true);
    var e := Escape(href, true);
    hide Escape, Unescape, Read, Find;
    var body := "a href=\"" + e + "\"";
    assert body[8..|body| - 1] == e && body[..8] == "a href=\"" && body[0] == 'a';
    ReadMarkup(body, s);
    assert "<a href=\"" + e + "\">" + s == "<" + body + ">" + s;
  }

  lemma ReadOne(t: Token, s: string)
    requires Writable(t) && !t.Words? && Read(s).Some?
    ensures Read(RenderOne(t) + s) == Some([t] + Read(s).value)
  {
    hide Read, Plain, Escape;
    match t
    case Open(Simple(tag)) =>
      TagsArePlain(tag);
      ReadOpen(tag, s);
    case Close(tag) =>
      TagsArePlain(tag);
      ReadClose(tag, s);
    case Open(Link(href)) => ReadLink(href, s);
  }

  /** Reading the output gives back the tokens that were accepted, with adjacent texts merged. */
  lemma {:induction false} OutputReadsBack(tokens: seq<Token>)
    requires forall t :: t in tokens ==> Writable(t)
    ensures Read(Render(tokens)) == Some(Merge(tokens))
  {
    if tokens != [] {
      OutputReadsBack(tokens[1..]);
      var first, rest := tokens[0], Render(tokens[1..]);
      hide Read, Find, Escape;
      if first.Words? {
        if first.text != "" {
          ReadWords(first.text, rest);
        } else {
          EmptyEscape();
          assert "" + rest == rest;
        }
      } else {
        ReadOne(first, rest);
      }
    }
  }

  lemma EmptyEscape()
    ensures Escape("", false) == ""
  {
  }

  /** What an accepted message renders can be read back, and rendering what was read gives the
      same text again: the filter's output is a fixed point of reading and writing. */
  lemma {:induction false} MergedRendersTheSame(tokens: seq<Token>)
    ensures Render(Merge(tokens)) == Render(tokens)
    ensures forall t :: t in Merge(tokens) && !t.Words? ==> t in tokens
  {
    if tokens != [] {
      MergedRendersTheSame(tokens[1..]);
      if tokens[0].Words? {
        PrependRenders(tokens[0].text, Merge(tokens[1..]));
      } else {
        assert ([tokens[0]] + Merge(tokens[1..]))[1..] == Merge(tokens[1..]);
      }
    }
  }

  lemma PrependRenders(text: string, tokens: seq<Token>)
    ensures Render(Prepend(text, tokens)) == Escape(text, false) + Render(tokens)
  {
    if text == "" {
      assert "" + Render(tokens) == Render(tokens);
    } else if tokens != [] && tokens[0].Words? {
      EscapeConcat(text, tokens[0].text, false);
      Regroup3(Escape(text, false), Escape(tokens[0].text, false), Render(tokens[1..]));
    } else {
      assert ([Words(text)] + tokens)[1..] == tokens;
    }
  }

  /** Merging keeps the nesting. */
  lemma {:induction false} MergedNestsTheSame(stack: seq<string>, tokens: seq<Token>)
    ensures PushAll(stack, Merge(tokens)) == PushAll(stack, tokens)
    decreases tokens
  {
    if tokens != [] {
      var next := Push(stack, tokens[0]);
      if tokens[0].Words? {
        MergedNestsTheSame(stack, tokens[1..]);
        PrependNests(stack, tokens[0].text, Merge(tokens[1..]));
      } else {
        assert ([tokens[0]] + Merge(tokens[1..]))[1..] == Merge(tokens[1..]);
        if next.Some? {
          MergedNestsTheSame(next.value, tokens[1..]);
        }
      }
    }
  }

  lemma PrependNests(stack: seq<string>, text: string, tokens: seq<Token>)
    ensures PushAll(stack, Prepend(text, tokens)) == PushAll(stack, tokens)
  {
    if text != "" && tokens != [] && tokens[0].Words? {
      assert ([Words(text + tokens[0].text)] + tokens[1..])[1..] == tokens[1..];
    } else {
      assert ([Words(text)] + tokens)[1..] == tokens;
    }
  }

  /** The parser's event for a token that was read. */
  function EventOf(t: Token): Event {
    match t
    case Open(Simple(tag)) => StartTag(tag, [])
    case Open(Link(href)) => StartTag("a", [Attribute("href", Some(href))])
    case Close(tag) => EndTag(tag)
    case Words(text) => Data(text)
  }

  function EventsOf(tokens: seq<Token>): seq<Event> {
    if tokens == [] then [] else [EventOf(tokens[0])] + EventsOf(tokens[1..])
  }

  /** Folding leaves the names it is compared with as they are. */
  predicate FoldsNames(rules: Rules) {
    && (forall tag :: tag in SIMPLE_TAGS ==> rules.fold(tag) == tag)
    && rules.fold("a") == "a" && rules.fold("href") == "href"
  }

  lemma {:induction false} EventsAreAcceptedAgain(rules: Rules, tokens: seq<Token>)
    requires FoldsNames(rules)
    requires forall t :: t in tokens ==> Writable(t) && AllowedToken(rules, t)
    ensures Tokens(rules, EventsOf(tokens)) == Ok(tokens)
  {
    if tokens != [] {
      EventsAreAcceptedAgain(rules, tokens[1..]);
      assert tokens[0] in tokens && TokenOf(rules, EventOf(tokens[0])) == Ok(tokens[0]);
      assert EventsOf(tokens)[1..] == EventsOf(tokens[1..]);
      assert [tokens[0]] + tokens[1..] == tokens;
    }
  }

  /** Every closing tag of an accepted message closes an allowed opening one. */
  lemma {:induction false} AcceptedIsWritable(rules: Rules, stack: seq<string>, tokens: seq<Token>)
    requires PushAll(stack, tokens).Some?
    requires forall t :: t in tokens ==> AllowedToken(rules, t)
    requires forall tag :: tag in stack ==> tag in SIMPLE_TAGS || tag == "a"
    ensures forall t :: t in tokens ==> Writable(t)
    decreases tokens
  {
    if tokens != [] {
      assert AllowedToken(rules, tokens[0]);
      AcceptedIsWritable(rules, Push(stack, tokens[0]).value, tokens[1..]);
    }
  }

  /** Reading the filter's output gives the accepted tokens with adjacent texts merged; filtered
      again they are accepted and give the same output. */
  lemma OutputIsStable(rules: Rules, events: seq<Event>)
    requires FoldsNames(rules) && Accepted(rules, events)
    ensures var tokens := Tokens(rules, events).value;
            var output := Render(tokens);
            && Read(output) == Some(Merge(tokens))
            && Accepted(rules, EventsOf(Merge(tokens)))
            && Render(Tokens(rules, EventsOf(Merge(tokens))).value) == output
  {
    var tokens := Tokens(rules, events).value;
    TokensAreAllowed(rules, events);
    AcceptedIsWritable(rules, [], tokens);
    OutputReadsBack(tokens);
    MergedRendersTheSame(tokens);
    MergedNestsTheSame([], tokens);
    forall t | t in Merge(tokens) ensures Writable(t) && AllowedToken(rules, t) {
      assert t.Words? || t in tokens;
    }
    EventsAreAcceptedAgain(rules, Merge(tokens));
  }
}
