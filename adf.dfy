/** The plain text of a Jira description written in the Atlassian Document Format, a JSON tree. */
module Adf {
  import opened Wrappers
  import opened Text

  /** A decoded JSON value, as `serde_json::Value` holds it; an object maps each key to one value. */
  datatype Json =
    | Null
    | Bool(b: bool)
    | Number(n: int)
    | Str(s: string)
    | Array(items: seq<Json>)
    | Object(fields: map<string, Json>)

  /** `obj.get("type").and_then(as_str) == Some("text")`: the object is a text node. */
  predicate IsTextNode(fields: map<string, Json>) {
    "type" in fields && fields["type"] == Str("text")
  }

  /** `extract_text_from_adf`: a string is its own text; an array joins the texts of its children with
      single spaces; a text node gives its "text" string; any other object gives the text of its
      "content"; null, booleans, numbers and everything else give None. */
  function ExtractText(v: Json): (r: Option<string>)
    ensures v.Null? || v.Bool? || v.Number? ==> r.None?
    ensures v.Str? ==> r == Some(v.s)
    ensures v.Array? ==> (r.None? <==> forall j :: 0 <= j < |v.items| ==> ExtractText(v.items[j]).None?)
    decreases v, if v.Array? then |v.items| + 1 else 0
  {
    match v
    case Null => None
    case Str(s) => Some(s)
    case Array(items) =>
      var parts := Parts(v, 0);
      if parts == [] then None else Some(Join(parts, " "))
    case Object(fields) =>
      if IsTextNode(fields) then
        if "text" in fields && fields["text"].Str? then Some(fields["text"].s) else None
      else if "content" in fields then ExtractText(fields["content"])
      else None
    case _ => None
  }

  /** The `filter_map` over the children of an array from position `k` on: the texts that exist, in
      order. */
  function Parts(v: Json, k: nat): (r: seq<string>)
    requires v.Array? && k <= |v.items|
    ensures |r| <= |v.items| - k
    ensures r == [] <==> forall j :: k <= j < |v.items| ==> ExtractText(v.items[j]).None?
    decreases v, |v.items| - k
  {
    if k == |v.items| then []
    else
      var rest := Parts(v, k + 1);
      match ExtractText(v.items[k])
      case Some(t) => [t] + rest
      case None => rest
  }

  /** A value has text: a string, an array with a child that has text, a text node whose "text" is a
      string, or another object whose "content" has text. */
  ghost predicate HasText(v: Json)
    decreases v
  {
    match v
    case Str(_) => true
    case Array(items) => exists j :: 0 <= j < |items| && HasText(items[j])
    case Object(fields) =>
      if IsTextNode(fields) then "text" in fields && fields["text"].Str?
      else "content" in fields && HasText(fields["content"])
    case _ => false
  }

  /** Extraction finds text exactly when the value has some. */
  lemma {:induction false} TextFoundIffPresent(v: Json)
    ensures ExtractText(v).Some? <==> HasText(v)
    decreases v
  {
    match v
    case Array(items) =>
      forall j | 0 <= j < |items| ensures ExtractText(items[j]).Some? <==> HasText(items[j]) {
        TextFoundIffPresent(items[j]);
      }
    case Object(fields) =>
      if !IsTextNode(fields) && "content" in fields {
        TextFoundIffPresent(fields["content"]);
      }
    case _ =>
  }

  /** A text node's "content" is never looked at. */
  lemma TextNodeIgnoresContent(fields: map<string, Json>, content: Json)
    requires IsTextNode(fields)
    ensures ExtractText(Object(fields["content" := content])) == ExtractText(Object(fields))
  {
    var changed := fields["content" := content];
    assert changed["type"] == fields["type"];
    assert "text" in changed <==> "text" in fields;
    assert "text" in fields ==> changed["text"] == fields["text"];
  }

  /** Any other object is as good as its "content", and has no text without one. */
  lemma ContentPassesThrough(fields: map<string, Json>)
    requires !IsTextNode(fields)
    ensures "content" in fields ==> ExtractText(Object(fields)) == ExtractText(fields["content"])
    ensures "content" !in fields ==> ExtractText(Object(fields)) == None
  {
  }

  /** The parts of a concatenation of children are the parts of each, in order. */
  lemma {:induction false} PartsOfConcatenation(a: seq<Json>, b: seq<Json>, k: nat)
    requires k <= |a|
    ensures Parts(Array(a + b), k) == Parts(Array(a), k) + Parts(Array(b), 0)
    decreases |a| - k
  {
    if k == |a| {
      PartsShift(a, b, 0);
    } else {
      assert (a + b)[k] == a[k];
      PartsOfConcatenation(a, b, k + 1);
      PartsUnfold(Array(a + b), k);
      PartsUnfold(Array(a), k);
      PrependConcat(ExtractText(a[k]), Parts(Array(a), k + 1), Parts(Array(b), 0));
    }
  }

  /** The text of one element, if it has one, in front of a list of texts. */
  function Prepend(o: Option<string>, rest: seq<string>): (r: seq<string>)
    ensures o.Some? ==> r == [o.value] + rest
    ensures o.None? ==> r == rest
  {
    match o
    case Some(t) => [t] + rest
    case None => rest
  }

  lemma {:induction false} PartsUnfold(v: Json, k: nat)
    requires v.Array? && k < |v.items|
    ensures Parts(v, k) == Prepend(ExtractText(v.items[k]), Parts(v, k + 1))
  {
  }

  lemma PrependConcat(o: Option<string>, x: seq<string>, y: seq<string>)
    ensures Prepend(o, x + y) == Prepend(o, x) + y
  {
    if o.Some? {
      assert [o.value] + (x + y) == ([o.value] + x) + y;
    }
  }

  /** Children after a prefix have the parts they have on their own. */
  lemma {:induction false} PartsShift(a: seq<Json>, b: seq<Json>, k: nat)
    requires k <= |b|
    ensures Parts(Array(a + b), |a| + k) == Parts(Array(b), k)
    decreases |b| - k
  {
    if k < |b| {
      assert (a + b)[|a| + k] == b[k];
      PartsShift(a, b, k + 1);
    }
  }

  /** A one-element array is as good as its element. */
  lemma SingletonArray(v: Json)
    ensures ExtractText(Array([v])) == ExtractText(v)
  {
    assert Parts(Array([v]), 1) == [];
  }

  /** Two arrays side by side give their texts joined by a space. */
  lemma ArrayConcatenation(a: seq<Json>, b: seq<Json>)
    requires ExtractText(Array(a)).Some? && ExtractText(Array(b)).Some?
    ensures ExtractText(Array(a + b)) == Some(ExtractText(Array(a)).value + " " + ExtractText(Array(b)).value)
  {
    PartsOfConcatenation(a, b, 0);
    JoinConcat(Parts(Array(a), 0), Parts(Array(b), 0), " ");
  }

  /** Joining two non-empty lists of parts puts the separator between their joins. */
  lemma {:induction false} JoinConcat(p: seq<string>, q: seq<string>, sep: string)
    requires p != [] && q != []
    ensures Join(p + q, sep) == Join(p, sep) + sep + Join(q, sep)
    decreases |p|
  {
    if |p| == 1 {
      assert (p + q)[1..] == q;
    } else {
      assert (p + q)[1..] == p[1..] + q;
      JoinConcat(p[1..], q, sep);
    }
  }

  /** A paragraph of two text runs reads as the runs separated by a space. */
  lemma ParagraphExample()
    ensures ExtractText(Object(map["type" := Str("doc"), "content" := Array([
              Object(map["type" := Str("paragraph"), "content" := Array([
                Object(map["type" := Str("text"), "text" := Str("Hello")]),
                Object(map["type" := Str("text"), "text" := Str("world")])])])])]))
            == Some("Hello world")
  {
    var hello := Object(map["type" := Str("text"), "text" := Str("Hello")]);
    var world := Object(map["type" := Str("text"), "text" := Str("world")]);
    var runs := Array([hello, world]);
    assert ExtractText(hello) == Some("Hello");
    assert ExtractText(world) == Some("world");
    SingletonArray(hello);
    SingletonArray(world);
    ArrayConcatenation([hello], [world]);
    assert [hello] + [world] == [hello, world];
    assert "Hello" + " " + "world" == "Hello world";
    assert ExtractText(runs) == Some("Hello world");
    var fields := map["type" := Str("paragraph"), "content" := runs];
    assert fields["type"] != Str("text");
    ContentPassesThrough(fields);
    var paragraph := Object(fields);
    SingletonArray(paragraph);
    var doc := map["type" := Str("doc"), "content" := Array([paragraph])];
    assert doc["type"] != Str("text");
    ContentPassesThrough(doc);
  }
}
