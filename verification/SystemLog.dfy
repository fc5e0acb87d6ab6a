/** Display text of a system log entry: a template expanded in one pass under a ceiling. */
module SystemLog {
  import opened Common

  const CEILING: nat := 256
  const ELLIPSIS: char := '\U{2026}'

  datatype Entity = Entity(name: Option<string>, id: Option<string>)

  datatype Parameters = Parameters(
    client: Option<Entity>, device: Option<Entity>, deviceFrom: Option<Entity>,
    deviceTo: Option<Entity>, wlan: Option<Entity>, network: Option<Entity>)

  datatype Entry = Entry(messageRaw: Option<string>, titleRaw: Option<string>, parameters: Parameters)

  /*** Names ***/

  function EntityOf(p: Parameters, name: string): Option<Entity> {
    if name == "CLIENT" then p.client
    else if name == "DEVICE" then p.device
    else if name == "DEVICE_FROM" then p.deviceFrom
    else if name == "DEVICE_TO" then p.deviceTo
    else if name == "WLAN" then p.wlan
    else if name == "NETWORK" then p.network
    else None
  }

  /** The placeholder names and their entities, in the order in which they are searched. */
  function EntityTable(p: Parameters): seq<(string, Option<Entity>)> {
    [("CLIENT", p.client), ("DEVICE", p.device), ("DEVICE_FROM", p.deviceFrom), ("DEVICE_TO", p.deviceTo),
     ("WLAN", p.wlan), ("NETWORK", p.network)]
  }

  function NonEmpty(s: Option<string>): Option<string> {
    if s == Some("") then None else s
  }

  /** The text a placeholder stands for, if its entity is known and has a name or an id. */
  function Replacement(p: Parameters, name: string): Option<string> {
    var entity := EntityOf(p, name);
    if entity.None? then None
    else if NonEmpty(entity.value.name).Some? then entity.value.name
    else NonEmpty(entity.value.id)
  }

  /*** Templates ***/

  /** A template is plain text and placeholders; this reading does not depend on any entity. */
  datatype Token = Plain(text: string) | Placeholder(name: string)

  /** The first token and what follows it. An unclosed brace makes the rest plain text. */
  function FirstToken(text: string): (r: (Token, string))
    requires text != ""
    ensures |r.1| < |text|
  {
    if text[0] == '{' then
      var end := Find(text[1..], '}');
      if end < |text| - 1 then (Placeholder(text[1..end + 1]), text[end + 2..]) else (Plain(text), "")
    else
      var end := Find(text, '{');
      (Plain(text[..end]), text[end..])
  }

  function Tokens(text: string): seq<Token>
    decreases |text|
  {
    if text == "" then [] else [FirstToken(text).0] + Tokens(FirstToken(text).1)
  }

  function Source(t: Token): string {
    match t
    case Plain(text) => text
    case Placeholder(name) => "{" + name + "}"
  }

  function SourceAll(tokens: seq<Token>): string {
    if tokens == [] then "" else Source(tokens[0]) + SourceAll(tokens[1..])
  }

  /** Splitting a template into tokens loses nothing. */
  lemma {:induction false} TokensLossless(text: string)
    ensures SourceAll(Tokens(text)) == text
    decreases |text|
  {
    if text != "" {
      FirstTokenSource(text);
      TokensLossless(FirstToken(text).1);
    }
  }

  lemma FirstTokenSource(text: string)
    requires text != ""
    ensures Source(FirstToken(text).0) + FirstToken(text).1 == text
  {
    if text[0] == '{' {
      var end := Find(text[1..], '}');
      if end < |text| - 1 {
        assert text[1..][end] == '}';
        assert text == "{" + text[1..end + 1] + "}" + text[end + 2..];
      }
    }
  }

  function Rendered(p: Parameters, t: Token): string {
    match t
    case Plain(text) => text
    case Placeholder(name) => if Replacement(p, name).Some? then Replacement(p, name).value else Source(t)
  }

  /** The unbounded expansion: each token of the template is rendered once. Inserted text is never
      read as template text, because the tokens are those of the template alone. */
  function Expansion(p: Parameters, tokens: seq<Token>): string {
    if tokens == [] then "" else Rendered(p, tokens[0]) + Expansion(p, tokens[1..])
  }

  /** A known placeholder renders as its entity's text exactly, even if that text looks like a template. */
  lemma InsertedTextVerbatim(p: Parameters, name: string)
    requires '}' !in name && Replacement(p, name).Some?
    ensures Expansion(p, Tokens("{" + name + "}")) == Replacement(p, name).value
  {
    var text := "{" + name + "}";
    assert text[1..] == name + "}";
    FindAfter(name, '}', "");
    assert text[1..] == name + ['}'] + "";
    var end := |name|;
    assert text[1..end + 1] == name && text[end + 2..] == "";
    assert Tokens(text) == [Placeholder(name)] + Tokens("");
    assert Expansion(p, [Placeholder(name)]) == Rendered(p, Placeholder(name)) + Expansion(p, []);
  }

  /*** What a template says ***/

  /** The placeholder stands for this entity. */
  predicate StandsFor(p: Parameters, name: string, entity: Option<Entity>) {
    || (name == "CLIENT" && entity == p.client) || (name == "DEVICE" && entity == p.device)
    || (name == "DEVICE_FROM" && entity == p.deviceFrom) || (name == "DEVICE_TO" && entity == p.deviceTo)
    || (name == "WLAN" && entity == p.wlan) || (name == "NETWORK" && entity == p.network)
  }

  /** The six placeholders show the name of their entity; without one, its id; without both, nothing replaces them. No
      other name is a placeholder. */
  lemma ReplacementIff(p: Parameters, name: string, text: string)
    ensures Replacement(p, name) == Some(text) <==>
            exists entity: Entity ::
              && StandsFor(p, name, Some(entity)) && text != ""
              && (entity.name == Some(text) || ((entity.name.None? || entity.name == Some("")) && entity.id == Some(text)))
  {
    if EntityOf(p, name).Some? {
      assert StandsFor(p, name, Some(EntityOf(p, name).value));
    }
  }

  /** Text without an opening brace is shown as it is. */
  lemma PlainShown(p: Parameters, text: string)
    requires '{' !in text
    ensures Expansion(p, Tokens(text)) == text
  {
    if text != "" {
      NotFound(text, '{');
      assert text[0] in text && text[..|text|] == text && text[|text|..] == "";
      assert FirstToken(text) == (Plain(text), "");
      assert Tokens("") == [] && Expansion(p, [Plain(text)]) == text + Expansion(p, []);
    }
  }

  lemma {:induction false} NotFound(text: string, c: char)
    requires c !in text
    ensures Find(text, c) == |text|
  {
    if text != "" { NotFound(text[1..], c); }
  }

  /** Plain text in front of a brace is shown as it is, and does not change how the rest is read. */
  lemma PlainThen(p: Parameters, before: string, rest: string)
    requires '{' !in before && rest != "" && rest[0] == '{'
    ensures Expansion(p, Tokens(before + rest)) == before + Expansion(p, Tokens(rest))
  {
    if before == "" {
      assert before + rest == rest;
    } else {
      var text := before + rest;
      assert text == before + ['{'] + rest[1..];
      FindAfter(before, '{', rest[1..]);
      assert text[..|before|] == before && text[|before|..] == rest;
      assert text[0] == before[0];
      ExpansionStep(p, text, before, rest);
    }
  }

  /** A closed brace is shown as its replacement or, without one, as it is; reading goes on behind it. */
  lemma PlaceholderShown(p: Parameters, name: string, rest: string)
    requires '}' !in name
    ensures Expansion(p, Tokens("{" + name + "}" + rest)) ==
            (if Replacement(p, name).Some? then Replacement(p, name).value else "{" + name + "}") + Expansion(p, Tokens(rest))
  {
    var text := "{" + name + "}" + rest;
    assert text[1..] == name + ['}'] + rest;
    FindAfter(name, '}', rest);
    assert text[1..|name| + 1] == name && text[|name| + 2..] == rest;
    assert FirstToken(text) == (Placeholder(name), rest);
    ExpansionStep(p, text, Rendered(p, Placeholder(name)), rest);
  }

  /** A brace that is never closed is shown as it is. */
  lemma UnclosedShown(p: Parameters, rest: string)
    requires '}' !in rest
    ensures Expansion(p, Tokens("{" + rest)) == "{" + rest
  {
    var text := "{" + rest;
    assert text[1..] == rest;
    NotFound(rest, '}');
    assert FirstToken(text) == (Plain(text), "");
    ExpansionStep(p, text, text, "");
    assert text + Expansion(p, Tokens("")) == text;
  }

  /** The message of an entry comes from its raw message; from its title, when the message is missing or empty. */
  lemma TemplateIff(e: Entry)
    ensures e.messageRaw.Some? && e.messageRaw.value != "" ==> Template(e) == e.messageRaw
    ensures e.messageRaw.None? || e.messageRaw.value == "" ==> Template(e) == e.titleRaw
  {
  }

  function Take(text: string, n: nat): string {
    text[..Min(n, |text|)]
  }

  /** Text cut to the ceiling, the ellipsis included. */
  function BoundedText(text: string): (r: string)
    ensures |text| <= 256 ==> r == text
    ensures |text| > 256 ==> |r| == 256 && r[255] == '\U{2026}' && r[..255] == text[..255]
  {
    if |text| <= CEILING then text else text[..CEILING - 1] + [ELLIPSIS]
  }

  /** Cutting to one character more than the ceiling first makes no difference to the display. */
  lemma BoundedTake(text: string)
    ensures BoundedText(Take(text, CEILING + 1)) == BoundedText(text)
  {
    if |text| > CEILING {
      assert Take(text, CEILING + 1)[..CEILING - 1] == text[..CEILING - 1];
    } else {
      assert Take(text, CEILING + 1) == text;
    }
  }

  lemma TakeConcat(a: string, b: string, n: nat)
    ensures |a| <= n ==> Take(a + b, n) == a + Take(b, n - |a|)
    ensures |a| >= n ==> Take(a + b, n) == Take(a, n)
  {
  }

  /** The raw template of an entry: its message, or its title when the message is missing or empty. */
  function Template(e: Entry): Option<string> {
    if NonEmpty(e.messageRaw).Some? then e.messageRaw else e.titleRaw
  }

  /** Searches the table for a name and takes its entity's name, or its id. */
  method FindReplacement(p: Parameters, name: string) returns (text: Option<string>)
    ensures text == Replacement(p, name)
  {
    var entities := EntityTable(p);
    var entity := None;
    for i := 0 to |entities|
      invariant forall k :: 0 <= k < i ==> entities[k].0 != name
      invariant entity == None
    {
      if entities[i].0 == name {
        entity := entities[i].1;
        break;
      }
    }
    TableIsDefinition(p, name, entity);
    if entity.None? { return None; }
    if entity.value.name.Some? && entity.value.name.value != "" { return entity.value.name; }
    if entity.value.id.Some? && entity.value.id.value != "" { return entity.value.id; }
    return None;
  }

  lemma TableIsDefinition(p: Parameters, name: string, entity: Option<Entity>)
    requires var t := EntityTable(p);
             || (entity == None && forall k :: 0 <= k < |t| ==> t[k].0 != name)
             || (exists k :: 0 <= k < |t| && t[k] == (name, entity) && forall j :: 0 <= j < k ==> t[j].0 != name)
    ensures entity == EntityOf(p, name)
  {
    var t := EntityTable(p);
    assert t[0].0 == "CLIENT" && t[1].0 == "DEVICE" && t[2].0 == "DEVICE_FROM";
    assert t[3].0 == "DEVICE_TO" && t[4].0 == "WLAN" && t[5].0 == "NETWORK";
  }

  /** The rendered first token of the rest of a template, and what remains. */
  method NextPart(p: Parameters, rest: string) returns (part: string, remaining: string)
    requires rest != ""
    ensures part == Rendered(p, FirstToken(rest).0) && remaining == FirstToken(rest).1
  {
    if rest[0] == '{' {
      var end := Find(rest[1..], '}');
      if end < |rest| - 1 {
        var replacement := FindReplacement(p, rest[1..end + 1]);
        assert rest[1..][end] == '}';
        assert rest[..end + 2] == "{" + rest[1..end + 1] + "}";
        part := if replacement.Some? then replacement.value else rest[..end + 2];
        remaining := rest[end + 2..];
      } else {
        part, remaining := rest, "";
      }
    } else {
      var end := Find(rest, '{');
      part, remaining := rest[..end], rest[end..];
    }
  }

  /** One pass over the template; the output stops growing at one character over the ceiling. */
  method Expand(p: Parameters, template: string) returns (output: string)
    ensures output == Take(Expansion(p, Tokens(template)), 257)
  {
    var rest := template;
    output := "";
    ghost var whole := Expansion(p, Tokens(template));
    while rest != "" && |output| <= CEILING
      invariant |output| <= CEILING + 1
      invariant |output| <= CEILING ==> whole == output + Expansion(p, Tokens(rest))
      invariant |output| > CEILING ==> output == Take(whole, CEILING + 1)
      decreases |rest|
    {
      var part, remaining := NextPart(p, rest);
      ExpansionStep(p, rest, part, remaining);
      Grow(whole, output, part, Expansion(p, Tokens(remaining)));
      output := output + Take(part, CEILING + 1 - |output|);
      rest := remaining;
    }
    if |output| <= CEILING {
      assert Expansion(p, Tokens(rest)) == "";
    }
  }

  lemma ExpansionStep(p: Parameters, rest: string, part: string, remaining: string)
    requires rest != "" && remaining == FirstToken(rest).1 && part == Rendered(p, FirstToken(rest).0)
    ensures Expansion(p, Tokens(rest)) == part + Expansion(p, Tokens(remaining))
  {
    assert Tokens(rest)[1..] == Tokens(remaining);
  }

  lemma Grow(whole: string, output: string, part: string, tail: string)
    requires |output| <= CEILING && whole == output + (part + tail)
    ensures var next := output + Take(part, CEILING + 1 - |output|);
            && |next| <= CEILING + 1
            && (|next| <= CEILING ==> whole == next + tail)
            && (|next| > CEILING ==> next == Take(whole, CEILING + 1))
  {
    TakeConcat(output, part + tail, CEILING + 1);
    TakeConcat(part, tail, CEILING + 1 - |output|);
    assert output + (part + tail) == (output + part) + tail;
  }

  /** The message of an entry: the display form of the unbounded one-pass expansion of its template,
      at most 256 characters. */
  method Message(e: Entry) returns (message: Option<string>)
    ensures message.Some? <==> Template(e).Some?
    ensures message.Some? ==> message.value == BoundedText(Expansion(e.parameters, Tokens(Template(e).value)))
    ensures message.Some? ==> |message.value| <= 256
  {
    var template := Template(e);
    if template.None? { return None; }
    var output := Expand(e.parameters, template.value);
    BoundedTake(Expansion(e.parameters, Tokens(template.value)));
    return Some(BoundedText(output));
  }
}
