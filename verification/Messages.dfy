/** From the chat request's messages to the provider-specific request bodies. */
module Messages {
  import opened Wrappers
  import opened Strings

  datatype Message = Message(role: string, content: string) {
    predicate IsSystem() {
      ToLower(role) == "system"
    }
  }

  /** The conversation proper, in order. */
  function Turns(ms: seq<Message>): seq<Message> {
    if ms == [] then []
    else
      var n := |ms| - 1;
      Turns(ms[..n]) + (if ms[n].IsSystem() then [] else [ms[n]])
  }

  /** The contents of the system messages, in order. */
  function Systems(ms: seq<Message>): seq<string> {
    if ms == [] then []
    else
      var n := |ms| - 1;
      Systems(ms[..n]) + (if ms[n].IsSystem() then [ms[n].content] else [])
  }

  /** A message is a system message in any spelling of the word. */
  lemma SystemExactly(m: Message)
    ensures m.IsSystem() <==> Spells(m.role, "system")
  {
    LowerWordExactly(m.role, "system");
  }

  /** One more message at the end goes to the end of the one part or the other. */
  lemma OneMoreMessage(ms: seq<Message>, m: Message)
    ensures Spells(m.role, "system") ==>
      Turns(ms + [m]) == Turns(ms) && Systems(ms + [m]) == Systems(ms) + [m.content]
    ensures !Spells(m.role, "system") ==>
      Turns(ms + [m]) == Turns(ms) + [m] && Systems(ms + [m]) == Systems(ms)
  {
    SystemExactly(m);
    assert (ms + [m])[..|ms|] == ms;
  }

  // ----- the gateway's rewriting -----

  ghost predicate Rewritten(ms: seq<Message>, directive: string, out: seq<Message>) {
    && |out| == |ms|
    && forall i :: 0 <= i < |ms| ==>
         out[i] == if ms[i].IsSystem() then Message(ms[i].role, ms[i].content + "\n" + directive) else ms[i]
  }

  ghost predicate AnySystem(ms: seq<Message>) {
    exists i :: 0 <= i < |ms| && ms[i].IsSystem()
  }

  /** The directive is appended to every system message, or put in front as one. */
  method RewriteMessages(ms: seq<Message>, directive: string) returns (out: seq<Message>)
    ensures AnySystem(ms) ==> Rewritten(ms, directive, out)
    ensures !AnySystem(ms) ==> out == [Message("system", directive)] + ms
  {
    out := [];
    var hasSystem := false;
    for i := 0 to |ms|
      invariant Rewritten(ms[..i], directive, out)
      invariant hasSystem <==> AnySystem(ms[..i])
    {
      assert ms[..i + 1] == ms[..i] + [ms[i]];
      if ToLower(ms[i].role) == "system" {
        out := out + [Message(ms[i].role, ms[i].content + "\n" + directive)];
        hasSystem := true;
        assert ms[..i + 1][i].IsSystem();
      } else {
        out := out + [Message(ms[i].role, ms[i].content)];
        assert forall j :: 0 <= j < i ==> ms[..i + 1][j] == ms[..i][j];
      }
    }
    assert ms[..|ms|] == ms;
    if !hasSystem {
      assert out == ms;
      out := [Message("system", directive)] + out;
    }
  }

  // ----- the provider requests -----

  /** The builder writes a newline before a part only once it holds some text. */
  function Glue(parts: seq<string>): string {
    if parts == [] then ""
    else
      var n := |parts| - 1;
      var text := Glue(parts[..n]);
      (if text != "" then text + "\n" else text) + parts[n]
  }

  lemma GlueSnoc(parts: seq<string>, x: string)
    ensures Glue(parts + [x]) == (if Glue(parts) != "" then Glue(parts) + "\n" else Glue(parts)) + x
  {
    assert (parts + [x])[..|parts|] == parts;
  }

  method BuildAnthropic(ms: seq<Message>) returns (system: string, msgs: seq<Message>)
    ensures msgs == Turns(ms)
    ensures system == Glue(Systems(ms))
  {
    system, msgs := "", [];
    for i := 0 to |ms|
      invariant msgs == Turns(ms[..i])
      invariant system == Glue(Systems(ms[..i]))
    {
      PartsSnoc(ms, i);
      var m := ms[i];
      if ToLower(m.role) == "system" {
        GlueSnoc(Systems(ms[..i]), m.content);
        if |system| > 0 {
          system := system + "\n";
        }
        system := system + m.content;
      } else {
        msgs := msgs + [Message(m.role, m.content)];
      }
    }
    assert ms[..|ms|] == ms;
  }

  datatype Content = Content(role: string, parts: seq<string>)

  function GeminiRole(role: string): string {
    if ToLower(role) == "assistant" then "model" else ToLower(role)
  }

  /** Gemini calls the assistant the model, in any spelling; a role in ASCII small letters keeps its name. */
  lemma GeminiRoleExactly(role: string)
    ensures Spells(role, "assistant") ==> GeminiRole(role) == "model"
    ensures !Spells(role, "assistant") ==> GeminiRole(role) == ToLower(role)
    ensures Spells(role, "user") ==> GeminiRole(role) == "user"
  {
    LowerWordExactly(role, "assistant");
    LowerWordExactly(role, "user");
  }

  ghost predicate Mirrors(contents: seq<Content>, turns: seq<Message>) {
    && |contents| == |turns|
    && forall i :: 0 <= i < |turns| ==> contents[i] == Content(GeminiRole(turns[i].role), [turns[i].content])
  }

  lemma PartsSnoc(ms: seq<Message>, i: nat)
    requires i < |ms|
    ensures Turns(ms[..i + 1]) == if ms[i].IsSystem() then Turns(ms[..i]) else Turns(ms[..i]) + [ms[i]]
    ensures Systems(ms[..i + 1]) == if ms[i].IsSystem() then Systems(ms[..i]) + [ms[i].content] else Systems(ms[..i])
  {
    assert ms[..i + 1][..i] == ms[..i];
  }

  lemma MirrorsSnoc(contents: seq<Content>, turns: seq<Message>, m: Message)
    requires Mirrors(contents, turns)
    ensures Mirrors(contents + [Content(GeminiRole(m.role), [m.content])], turns + [m])
  {
  }

  method BuildGemini(ms: seq<Message>) returns (instruction: Option<seq<string>>, contents: seq<Content>)
    ensures Mirrors(contents, Turns(ms))
    ensures instruction == if Systems(ms) == [] then None else Some(Systems(ms))
  {
    var systemParts: seq<string> := [];
    contents := [];
    for i := 0 to |ms|
      invariant Mirrors(contents, Turns(ms[..i]))
      invariant systemParts == Systems(ms[..i])
    {
      PartsSnoc(ms, i);
      var m := ms[i];
      var role := ToLower(m.role);
      if role == "system" {
        systemParts := systemParts + [m.content];
      } else {
        if role == "assistant" {
          role := "model";
        }
        MirrorsSnoc(contents, Turns(ms[..i]), m);
        contents := contents + [Content(role, [m.content])];
      }
    }
    assert ms[..|ms|] == ms;
    instruction := if |systemParts| > 0 then Some(systemParts) else None;
  }

  // ----- what rewriting does to turns and system texts -----

  lemma {:induction false} RewrittenKeepsTurns(ms: seq<Message>, directive: string, out: seq<Message>)
    requires Rewritten(ms, directive, out)
    ensures Turns(out) == Turns(ms)
    ensures |Systems(out)| == |Systems(ms)|
    ensures forall i :: 0 <= i < |Systems(ms)| ==> Systems(out)[i] == Systems(ms)[i] + "\n" + directive
  {
    if ms != [] {
      var n := |ms| - 1;
      RewrittenKeepsTurns(ms[..n], directive, out[..n]);
    }
  }

  lemma {:induction false} SystemsExactly(ms: seq<Message>)
    ensures Systems(ms) == [] <==> !AnySystem(ms)
  {
    if ms != [] {
      var n := |ms| - 1;
      SystemsExactly(ms[..n]);
      AnySystemSnoc(ms);
    }
  }

  lemma AnySystemSnoc(ms: seq<Message>)
    requires ms != []
    ensures AnySystem(ms) <==> AnySystem(ms[..|ms| - 1]) || ms[|ms| - 1].IsSystem()
  {
    var n := |ms| - 1;
    assert forall i :: 0 <= i < n ==> ms[..n][i] == ms[i];
  }

  lemma {:induction false} PrependedSystem(d: string, ms: seq<Message>)
    requires !AnySystem(ms)
    ensures Turns([Message("system", d)] + ms) == Turns(ms)
    ensures Systems([Message("system", d)] + ms) == [d]
  {
    var head := [Message("system", d)];
    if ms == [] {
      SystemRole();
      assert head + ms == head && head[..0] == [];
    } else {
      var n := |ms| - 1;
      AnySystemSnoc(ms);
      PrependedSystem(d, ms[..n]);
      assert (head + ms)[..n + 1] == head + ms[..n] && (head + ms)[n + 1] == ms[n];
    }
  }

  lemma SystemRole()
    ensures ToLower("system") == "system"
  {
  }

  /**
   * The rewritten list holds the same conversation; each system text is the client's own, a line break
   * and the directive, and without any the directive is the only one.
   */
  ghost predicate Directed(ms: seq<Message>, directive: string, out: seq<Message>) {
    && Turns(out) == Turns(ms)
    && |Systems(out)| == (if Systems(ms) == [] then 1 else |Systems(ms)|)
    && (forall i :: 0 <= i < |Systems(out)| ==>
          Systems(out)[i] == if Systems(ms) == [] then directive else Systems(ms)[i] + "\n" + directive)
  }

  lemma RewritingDirects(ms: seq<Message>, directive: string, out: seq<Message>)
    requires AnySystem(ms) ==> Rewritten(ms, directive, out)
    requires !AnySystem(ms) ==> out == [Message("system", directive)] + ms
    ensures Directed(ms, directive, out)
  {
    SystemsExactly(ms);
    if AnySystem(ms) {
      RewrittenKeepsTurns(ms, directive, out);
    } else {
      PrependedSystem(directive, ms);
    }
  }

  // ----- the builder's text -----

  function SkipEmpty(parts: seq<string>): seq<string> {
    if parts != [] && parts[0] == "" then SkipEmpty(parts[1..]) else parts
  }

  lemma {:induction false} SkipEmptySnoc(parts: seq<string>, x: string)
    ensures SkipEmpty(parts + [x])
         == if SkipEmpty(parts) != [] then SkipEmpty(parts) + [x] else if x == "" then [] else [x]
  {
    if parts == [] {
      assert parts + [x] == [x];
    } else {
      SkipEmptySnoc(parts[1..], x);
      assert (parts + [x])[1..] == parts[1..] + [x];
    }
  }

  lemma SkipEmptyHead(parts: seq<string>)
    ensures SkipEmpty(parts) != [] ==> SkipEmpty(parts)[0] != "" && Join(SkipEmpty(parts), "\n") != ""
  {
  }

  /** The builder joins by newlines what remains after the leading empty parts. */
  lemma {:induction false} GlueJoins(parts: seq<string>)
    ensures Glue(parts) == Join(SkipEmpty(parts), "\n")
  {
    if parts != [] {
      var n := |parts| - 1;
      GlueJoins(parts[..n]);
      assert parts == parts[..n] + [parts[n]];
      SkipEmptySnoc(parts[..n], parts[n]);
      SkipEmptyHead(parts[..n]);
      if SkipEmpty(parts[..n]) != [] {
        JoinAppend(SkipEmpty(parts[..n]), "\n", parts[n]);
      }
    }
  }

  lemma {:induction false} SkipEmptyShortens(parts: seq<string>)
    ensures |Join(SkipEmpty(parts), "\n")| <= |Join(parts, "\n")|
    ensures |parts| >= 2 && parts[0] == "" ==> |Join(SkipEmpty(parts), "\n")| < |Join(parts, "\n")|
  {
    if parts != [] && parts[0] == "" {
      SkipEmptyShortens(parts[1..]);
    }
  }

  /** The text is the plain newline join exactly when at most one part exists or the first is not empty. */
  lemma GlueIsPlainJoinExactly(parts: seq<string>)
    ensures Glue(parts) == Join(parts, "\n") <==> |parts| <= 1 || parts[0] != ""
  {
    GlueJoins(parts);
    SkipEmptyShortens(parts);
  }

  lemma {:induction false} JoinSuffix(parts: seq<string>, sep: string, tail: string)
    requires parts != [] && HasSuffix(parts[|parts| - 1], tail)
    ensures HasSuffix(Join(parts, sep), tail)
  {
    if |parts| > 1 {
      JoinSuffix(parts[1..], sep, tail);
      SuffixOfConcat(parts[0] + sep, Join(parts[1..], sep), tail);
    }
  }

  lemma SuffixOfConcat(a: string, b: string, tail: string)
    requires HasSuffix(b, tail)
    ensures HasSuffix(a + b, tail)
  {
    assert (a + b)[|a + b| - |tail|..] == b[|b| - |tail|..];
  }

  // ----- the providers see the same conversation -----

  /** The client's system texts, each followed by a line break and the directive, in order. */
  function Directives(ms: seq<Message>, directive: string): (parts: seq<string>)
    ensures |parts| == |Systems(ms)|
    ensures forall i :: 0 <= i < |parts| ==> parts[i] == Systems(ms)[i] + "\n" + directive
  {
    seq(|Systems(ms)|, i requires 0 <= i < |Systems(ms)| => Systems(ms)[i] + "\n" + directive)
  }

  lemma DirectedParts(ms: seq<Message>, directive: string, out: seq<Message>)
    requires Directed(ms, directive, out)
    ensures Systems(out) == if Systems(ms) == [] then [directive] else Directives(ms, directive)
  {
  }

  lemma {:induction false} PartsEndInDirective(ms: seq<Message>, directive: string, parts: seq<string>)
    requires parts == if Systems(ms) == [] then [directive] else Directives(ms, directive)
    ensures HasSuffix(Join(parts, "\n"), directive)
  {
    var n := |parts| - 1;
    if Systems(ms) != [] {
      SuffixOfConcat(Systems(ms)[n] + "\n", directive, directive);
    }
    JoinSuffix(parts, "\n", directive);
  }

  lemma PlainlyGlued(ms: seq<Message>, directive: string, parts: seq<string>)
    requires parts == if Systems(ms) == [] then [directive] else Directives(ms, directive)
    ensures Glue(parts) == Join(parts, "\n")
  {
    GlueIsPlainJoinExactly(parts);
  }

  /**
   * After rewriting, both providers get the client's turns, and every system text the client sent, in
   * order, each followed by the directive: Gemini as parts, Anthropic as their newline join. Without
   * any, both get the directive alone.
   */
  lemma SameConversation(ms: seq<Message>, directive: string, out: seq<Message>,
                         system: string, msgs: seq<Message>, instruction: Option<seq<string>>, contents: seq<Content>)
    requires Directed(ms, directive, out)
    requires msgs == Turns(out) && system == Glue(Systems(out))
    requires Mirrors(contents, Turns(out)) && instruction == if Systems(out) == [] then None else Some(Systems(out))
    ensures msgs == Turns(ms) && Mirrors(contents, Turns(ms))
    ensures instruction == Some(if Systems(ms) == [] then [directive] else Directives(ms, directive))
    ensures system == (if Systems(ms) == [] then directive else Join(Directives(ms, directive), "\n"))
    ensures HasSuffix(system, directive)
  {
    DirectedParts(ms, directive, out);
    PlainlyGlued(ms, directive, Systems(out));
    PartsEndInDirective(ms, directive, Systems(out));
    assert Systems(ms) == [] ==> Join([directive], "\n") == directive;
  }
}
