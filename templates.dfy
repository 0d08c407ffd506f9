/** The placeholder substitution engine (`renderTemplate`): the template text
    is read, then each context entry in turn replaces every `{{key}}` token in
    the text produced so far by the entry's value. */
module Templates {
  import opened Text
  import opened JsValues
  import JsReplace

  /** One `[key, value]` pair of the context object, in `Object.entries`
      order. */
  datatype Entry = Entry(key: string, value: Value)

  /** A template file: its text, or a read that fails. */
  datatype Document = Available(text: string) | Unavailable

  /** The message of the error every rendering failure is turned into. */
  const RenderFailedMessage := "Template rendering failed"

  /** The placeholder token for `key`. */
  function Token(key: string): string {
    "{{" + key + "}}"
  }

  /** A token whose key has no `{` cannot overlap another occurrence of
      itself, so its occurrences in a text are well separated. */
  lemma TokenBorderFree(key: string)
    requires '{' !in key
    ensures |Token(key)| > 0 && BorderFree(Token(key))
  {
    var t := Token(key);
    forall n | 0 < n < |t|
      ensures t[..n] != t[|t| - n..]
    {
      var j := |t| - n;
      if j == 1 {
        assert t[..n][1] == '{';
        assert t[j..][1] == t[2];
        assert t[2] != '{' by {
          if |key| > 0 { assert t[2] == key[0]; } else { assert t[2] == '}'; }
        }
      } else {
        assert t[..n][0] == '{';
        assert t[j..][0] == t[j];
        assert t[j] != '{' by {
          if j < 2 + |key| { assert t[j] == key[j - 2]; } else { assert t[j] == '}'; }
        }
      }
    }
  }

  /** The text a value is substituted as: an object-typed value (an object,
      an array, or null) as its JSON text, any other value as it converts to
      a string, so a string goes in as it is. */
  function ReplacementText(v: Value, rt: Runtime): (text: string)
    ensures v.Str? ==> text == v.s
    ensures v.Undefined? ==> text == "undefined"
    ensures IsObjectType(v) ==> text == rt.stringify(v)
  {
    if IsObjectType(v) then rt.stringify(v) else ToText(v, rt).value
  }

  /** One pass of the loop: every token of the entry's key replaced. */
  function Substitute(text: string, e: Entry, rt: Runtime): string {
    ReplaceAll(text, Token(e.key), ReplacementText(e.value, rt))
  }

  /** The text after the passes for `entries`, applied in order, each to the
      output of the one before. */
  function Render(text: string, entries: seq<Entry>, rt: Runtime): string
    decreases |entries|
  {
    if |entries| == 0 then text
    else Substitute(Render(text, entries[..|entries| - 1], rt), entries[|entries| - 1], rt)
  }

  /** `renderTemplate` on a template file: the rendered text, or the single
      rendering error when the file cannot be read. */
  function RenderDocument(doc: Document, entries: seq<Entry>, rt: Runtime): (r: Completion<string>)
    ensures r.Normal? <==> doc.Available?
    ensures r.Throw? ==> r.message == RenderFailedMessage
  {
    match doc
    case Unavailable => Throw(RenderFailedMessage)
    case Available(text) => Normal(Render(text, entries, rt))
  }

  /** `renderTemplate`: read the file, then rewrite the buffer once per
      context entry. */
  method RenderTemplate(doc: Document, data: seq<Entry>, rt: Runtime) returns (r: Completion<string>)
    ensures r == RenderDocument(doc, data, rt)
  {
    if doc.Unavailable? {
      return Throw(RenderFailedMessage);
    }
    var rendered := doc.text;
    for i := 0 to |data|
      invariant rendered == Render(doc.text, data[..i], rt)
    {
      var placeholder := Token(data[i].key);
      var replacement := ReplacementText(data[i].value, rt);
      rendered := ReplaceAll(rendered, placeholder, replacement);
      assert data[..i + 1][..i] == data[..i];
    }
    assert data[..|data|] == data;
    return Normal(rendered);
  }

  /** Rendering with a context split in two is rendering with the second
      part the output of the first. */
  lemma {:induction false} RenderAppend(text: string, first: seq<Entry>, second: seq<Entry>, rt: Runtime)
    ensures Render(text, first + second, rt) == Render(Render(text, first, rt), second, rt)
    decreases |second|
  {
    if |second| == 0 {
      assert first + second == first;
    } else {
      var all := first + second;
      assert all[..|all| - 1] == first + second[..|second| - 1];
      assert all[|all| - 1] == second[|second| - 1];
      RenderAppend(text, first, second[..|second| - 1], rt);
    }
  }

  /** The first entry is applied to the template text itself. */
  lemma RenderFirst(text: string, e: Entry, rest: seq<Entry>, rt: Runtime)
    ensures Render(text, [e] + rest, rt) == Render(Substitute(text, e, rt), rest, rt)
  {
    RenderAppend(text, [e], rest, rt);
    assert [e][..0] == [];
  }

  /** A text holding no token of any context key comes back unchanged; so
      does any text rendered with an empty context. */
  lemma {:induction false} RenderUntouched(text: string, entries: seq<Entry>, rt: Runtime)
    requires forall k :: 0 <= k < |entries| ==> !Occurs(text, Token(entries[k].key))
    ensures Render(text, entries, rt) == text
    decreases |entries|
  {
    if |entries| > 0 {
      var last := entries[|entries| - 1];
      RenderUntouched(text, entries[..|entries| - 1], rt);
      ReplaceAllAbsent(text, Token(last.key), ReplacementText(last.value, rt));
    }
  }

  /** One pass on a text in which the entry's token occurs once: the token
      is replaced by the value and everything around it is kept. */
  lemma SubstituteLone(pre: string, post: string, e: Entry, rt: Runtime)
    requires '{' !in e.key
    requires !Occurs(pre, Token(e.key)) && !Occurs(post, Token(e.key))
    ensures Substitute(pre + Token(e.key) + post, e, rt) == pre + ReplacementText(e.value, rt) + post
  {
    var t, v := Token(e.key), ReplacementText(e.value, rt);
    TokenBorderFree(e.key);
    ReplaceAllJoin([pre, post], t, v);
    assert Join([pre, post], t) == pre + t + post;
    assert Join([pre, post], v) == pre + v + post;
  }

  /** A token that occurs once, for the first entry, is replaced by the
      entry's value, and the rest of the template is kept, as long as the
      later entries find none of their tokens in the result. */
  lemma RenderLoneToken(pre: string, post: string, e: Entry, rest: seq<Entry>, rt: Runtime)
    requires '{' !in e.key
    requires !Occurs(pre, Token(e.key)) && !Occurs(post, Token(e.key))
    requires forall k :: 0 <= k < |rest| ==>
               !Occurs(pre + ReplacementText(e.value, rt) + post, Token(rest[k].key))
    ensures Render(pre + Token(e.key) + post, [e] + rest, rt) == pre + ReplacementText(e.value, rt) + post
  {
    SubstituteLone(pre, post, e, rt);
    RenderFirst(pre + Token(e.key) + post, e, rest, rt);
    RenderUntouched(pre + ReplacementText(e.value, rt) + post, rest, rt);
  }

  /** Each pass sees the output of the passes before it: when the first
      entry's value holds the second entry's token, the second pass replaces
      that token too. */
  lemma RenderIsSequential(a: string, b: string, x: string, y: string, w: Value, rt: Runtime)
    requires '{' !in a && '{' !in b
    requires !Occurs(x, Token(b)) && !Occurs(y, Token(b))
    ensures Render(Token(a), [Entry(a, Str(x + Token(b) + y)), Entry(b, w)], rt)
            == x + ReplacementText(w, rt) + y
  {
    var first, second := Entry(a, Str(x + Token(b) + y)), Entry(b, w);
    assert [first, second] == [first] + [second];
    RenderFirst(Token(a), first, [second], rt);
    assert !Occurs("", Token(a));
    SubstituteLone("", "", first, rt);
    assert "" + Token(a) + "" == Token(a);
    assert "" + (x + Token(b) + y) + "" == x + Token(b) + y;
    SubstituteLone(x, y, second, rt);
    assert [second][..0] == [];
  }

  /** Two small renderings: a string value goes in as it is, an object
      value as its JSON text. */
  lemma RenderExamples(rt: Runtime)
    ensures Render("<p>" + Token("X") + "</p>", [Entry("X", Str("hello"))], rt) == "<p>hello</p>"
    ensures var obj := Object(map["a" := Number(1.0)]);
            Render("<p>" + Token("X") + "</p>", [Entry("X", obj)], rt) == "<p>" + rt.stringify(obj) + "</p>"
  {
    var obj := Object(map["a" := Number(1.0)]);
    RenderLoneToken("<p>", "</p>", Entry("X", Str("hello")), [], rt);
    assert "<p>" + "hello" + "</p>" == "<p>hello</p>";
    RenderLoneToken("<p>", "</p>", Entry("X", obj), [], rt);
  }

  /** The renderer as written: each pass goes through JavaScript's
      `replace`, which expands `$` patterns in the value. */
  function RenderAsWritten(text: string, entries: seq<Entry>, rt: Runtime): string
    decreases |entries|
  {
    if |entries| == 0 then text
    else
      var e := entries[|entries| - 1];
      JsReplace.ReplaceGlobal(RenderAsWritten(text, entries[..|entries| - 1], rt),
                              Token(e.key), ReplacementText(e.value, rt))
  }

  /** When no value's text contains `$`, the renderer as written and the
      literal renderer agree. */
  lemma {:induction false} RenderAsWrittenLiteral(text: string, entries: seq<Entry>, rt: Runtime)
    requires forall k :: 0 <= k < |entries| ==> '$' !in ReplacementText(entries[k].value, rt)
    ensures RenderAsWritten(text, entries, rt) == Render(text, entries, rt)
    decreases |entries|
  {
    if |entries| > 0 {
      var e := entries[|entries| - 1];
      RenderAsWrittenLiteral(text, entries[..|entries| - 1], rt);
      JsReplace.ReplaceGlobalLiteral(Render(text, entries[..|entries| - 1], rt),
                                     Token(e.key), ReplacementText(e.value, rt));
    }
  }

  /** A value holding `$'` is not substituted as it is by the renderer as
      written: it turns into the text that follows the token. */
  lemma DollarInValueExpands(rt: Runtime)
    ensures RenderAsWritten("a{{X}}b", [Entry("X", Str("$'"))], rt) == "abb"
    ensures Render("a{{X}}b", [Entry("X", Str("$'"))], rt) == "a$'b"
  {
    JsReplace.DollarQuoteExpands();
    assert [Entry("X", Str("$'"))][..0] == [];
  }
}
