/**
 * The records of `commit.py`: the `Commit` class, its string rendering and
 * the `ApiRequestError` exception.
 */
module Commits {
  import opened Wrappers
  import opened Text

  /**
   * A commit, with its fields declared in the order of the `Commit`
   * constructor's parameters. Being a datatype, a value is never mutated
   * after construction.
   */
  datatype Commit = Commit(
    id: string,
    date: string,
    committer_name: string,
    commit_message: string,
    changed_file_count: int,
    addition_count: int,
    deletion_count: int,
    short_explanation: string,
    long_explanation: string,
    link_url: string)

  /** The exception raised for a non-200 response: its status and raw body. */
  datatype ApiRequestError = ApiRequestError(status_code: int, content: string)

  /** A Python value as passed to, or read back from, a `Commit`. */
  datatype Value = Str(s: string) | Num(n: int)

  /** Why a positional call of the constructor raises `TypeError`. */
  datatype InitError =
    | ArityError(expected: nat, given: nat)
    | SlotKindError

  /** Why an attribute read raises `AttributeError`. */
  datatype AttributeError = NoSuchAttribute(name: string)

  /** The constructor's parameter names, in order; each names a field. */
  const FieldNames: seq<string> := [
    "id", "date", "committer_name", "commit_message",
    "changed_file_count", "addition_count", "deletion_count",
    "short_explanation", "long_explanation", "link_url"]

  /** The constructor arguments that rebuild `c`, in parameter order. */
  function ArgsOf(c: Commit): (args: seq<Value>)
    ensures |args| == |FieldNames|
  {
    [Str(c.id), Str(c.date), Str(c.committer_name), Str(c.commit_message),
     Num(c.changed_file_count), Num(c.addition_count), Num(c.deletion_count),
     Str(c.short_explanation), Str(c.long_explanation), Str(c.link_url)]
  }

  /** Whether the value in constructor position `i` has the field's kind. */
  predicate SlotFits(i: nat, v: Value)
    requires i < |FieldNames|
  {
    if 4 <= i <= 6 then v.Num? else v.Str?
  }

  /**
   * Reading instance attribute `name` of a commit: `__init__` sets exactly
   * the ten fields, each holding the argument of the same name. Class,
   * special and method attributes are outside this model.
   */
  function Attribute(c: Commit, name: string): (r: Result<Value, AttributeError>)
    ensures r.Success? <==> name in FieldNames
    ensures r.Failure? ==> r.error == NoSuchAttribute(name)
    ensures forall i :: 0 <= i < |FieldNames| && FieldNames[i] == name ==> r == Success(ArgsOf(c)[i])
  {
    if name == "id" then Success(Str(c.id))
    else if name == "date" then Success(Str(c.date))
    else if name == "committer_name" then Success(Str(c.committer_name))
    else if name == "commit_message" then Success(Str(c.commit_message))
    else if name == "changed_file_count" then Success(Num(c.changed_file_count))
    else if name == "addition_count" then Success(Num(c.addition_count))
    else if name == "deletion_count" then Success(Num(c.deletion_count))
    else if name == "short_explanation" then Success(Str(c.short_explanation))
    else if name == "long_explanation" then Success(Str(c.long_explanation))
    else if name == "link_url" then Success(Str(c.link_url))
    else Failure(NoSuchAttribute(name))
  }

  /**
   * `Commit(*args)`: exactly ten positional arguments are accepted, and
   * each is stored unchanged in the field of the same name.
   */
  function PositionalInit(args: seq<Value>): (r: Result<Commit, InitError>)
    ensures |args| != |FieldNames| ==> r == Failure(ArityError(|FieldNames|, |args|))
    ensures r.Success? <==> |args| == |FieldNames| && forall i :: 0 <= i < |args| ==> SlotFits(i, args[i])
    ensures r.Success? ==> ArgsOf(r.value) == args
    ensures r.Success? ==> forall i :: 0 <= i < |args| ==> Attribute(r.value, FieldNames[i]) == Success(args[i])
  {
    if |args| != |FieldNames| then Failure(ArityError(|FieldNames|, |args|))
    else if exists i :: 0 <= i < |args| && !SlotFits(i, args[i]) then Failure(SlotKindError)
    else
      Success(Commit(args[0].s, args[1].s, args[2].s, args[3].s,
                     args[4].n, args[5].n, args[6].n,
                     args[7].s, args[8].s, args[9].s))
  }

  /** Passing a commit's own fields back to the constructor rebuilds it. */
  lemma InitRoundTrip(c: Commit)
    ensures PositionalInit(ArgsOf(c)) == Success(c)
  {
    var args := ArgsOf(c);
    assert forall i :: 0 <= i < |args| ==> SlotFits(i, args[i]);
  }

  /** `html_url`, which the report writers read, is not an instance attribute, nor defined on the class. */
  lemma HtmlUrlIsNotAnAttribute(c: Commit)
    ensures Attribute(c, "html_url") == Failure(NoSuchAttribute("html_url"))
  {
    assert "html_url" !in FieldNames;
  }

  /** `str(c)`, as `Commit.__str__` writes it. */
  function Render(c: Commit): (s: string)
    ensures StartsWith(s, "Commit:{id='" + c.id + "',date='" + c.date + "',short_explanation='"
                          + c.short_explanation + ",committer='")
    ensures s[|s| - 1] == '\''
    ensures |s| == 80 + |c.id| + |c.date| + |c.short_explanation| + |c.committer_name|
                     + |c.commit_message| + |c.link_url|
  {
    "Commit:{id='" + c.id + "',date='" + c.date + "',short_explanation='" + c.short_explanation
    + ",committer='" + c.committer_name + "',commit_message='" + c.commit_message
    + "',link='" + c.link_url + "'"
  }

  /** The commit fields `Render` writes, in the order it writes them. */
  datatype Rendered = Rendered(
    id: string, date: string, short_explanation: string,
    committer: string, commit_message: string, link: string)

  /** Splits `s` just before its first quote; `None` if there is none. */
  function UntilQuote(s: string): Option<(string, string)> {
    if |s| == 0 then None
    else if s[0] == '\'' then Some(("", s))
    else
      var p :- UntilQuote(s[1..]);
      Some(([s[0]] + p.0, p.1))
  }

  /** Strips the literal `lit`, then splits off the text before the next quote. */
  function Field(s: string, lit: string): Option<(string, string)> {
    var s1 :- Expect(s, lit);
    UntilQuote(s1)
  }

  /** Reads the fields back out of a rendering produced by `Render`. */
  function ParseRendered(s: string): Option<Rendered> {
    var tag := ",committer=";
    var p1 :- Field(s, "Commit:{id='");
    var p2 :- Field(p1.1, "',date='");
    // the short explanation has no closing quote: it runs up to ",committer="
    var p3 :- Field(p2.1, "',short_explanation='");
    if !(|tag| <= |p3.0| && p3.0[|p3.0| - |tag|..] == tag) then None
    else
      var p4 :- Field(p3.1, "'");
      var p5 :- Field(p4.1, "',commit_message='");
      var p6 :- Field(p5.1, "',link='");
      if p6.1 != "'" then None
      else Some(Rendered(p1.0, p2.0, p3.0[..|p3.0| - |tag|], p4.0, p5.0, p6.0))
  }

  lemma {:induction false} UntilQuoteSplits(x: string, rest: string)
    requires '\'' !in x
    requires |rest| > 0 && rest[0] == '\''
    ensures UntilQuote(x + rest) == Some((x, rest))
    decreases |x|
  {
    if |x| == 0 {
      assert x + rest == rest;
    } else {
      assert (x + rest)[1..] == x[1..] + rest;
      UntilQuoteSplits(x[1..], rest);
      assert [x[0]] + x[1..] == x;
    }
  }

  /** The fields `Render` writes are not separated from one another by a quote. */
  predicate RenderedFieldsQuoteFree(c: Commit) {
    && '\'' !in c.id && '\'' !in c.date && '\'' !in c.short_explanation
    && '\'' !in c.committer_name && '\'' !in c.commit_message && '\'' !in c.link_url
  }

  lemma FieldSplits(lit: string, x: string, rest: string)
    requires '\'' !in x
    requires |rest| > 0 && rest[0] == '\''
    ensures Field(lit + (x + rest), lit) == Some((x, rest))
  {
    ExpectLiteral(lit, x + rest);
    UntilQuoteSplits(x, rest);
  }

  /** The short explanation and the label after it share no quote: the split falls after `=`. */
  lemma ShortThenCommitter(short: string, rest: string)
    ensures short + (",committer='" + rest) == (short + ",committer=") + ("'" + rest)
  {
    assert ",committer='" == ",committer=" + "'";
  }

  /**
   * The rendering is faithful: when no rendered field contains a quote,
   * every rendered field can be read back from it.
   */
  lemma RenderRoundTrip(c: Commit)
    requires RenderedFieldsQuoteFree(c)
    ensures ParseRendered(Render(c)) ==
      Some(Rendered(c.id, c.date, c.short_explanation, c.committer_name, c.commit_message, c.link_url))
  {
    var tag := ",committer=";
    var r5 := "',link='" + (c.link_url + "'");
    var r4 := "',commit_message='" + (c.commit_message + r5);
    var q3 := "'" + (c.committer_name + r4);
    var x := c.short_explanation + tag;
    var r2 := "',short_explanation='" + (x + q3);
    var r1 := "',date='" + (c.date + r2);
    var r0 := "Commit:{id='" + (c.id + r1);
    Regroup13("Commit:{id='", c.id, "',date='", c.date, "',short_explanation='", c.short_explanation,
              ",committer='", c.committer_name, "',commit_message='", c.commit_message, "',link='", c.link_url, "'");
    ShortThenCommitter(c.short_explanation, c.committer_name + r4);
    assert Render(c) == r0;

    FieldSplits("Commit:{id='", c.id, r1);
    FieldSplits("',date='", c.date, r2);
    assert '\'' !in x;
    FieldSplits("',short_explanation='", x, q3);
    assert x[|x| - |tag|..] == tag && x[..|x| - |tag|] == c.short_explanation;
    FieldSplits("'", c.committer_name, r4);
    FieldSplits("',commit_message='", c.commit_message, r5);
    FieldSplits("',link='", c.link_url, "'");
  }

  /**
   * The three counts and the long explanation are not rendered: changing
   * them leaves the rendering as it was.
   */
  lemma RenderOmitsCountsAndLongExplanation(c: Commit, files: int, additions: int, deletions: int, long: string)
    ensures Render(c) == Render(c.(changed_file_count := files, addition_count := additions,
                                   deletion_count := deletions, long_explanation := long))
  {
  }
}
