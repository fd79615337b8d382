/** Commands to the server: a text in quotes that semicolons cut into fields. */
module Commands {
  import opened Basics

  predicate OneField(s: string) { forall i | 0 <= i < |s| :: s[i] != ';' }

  /** The text before the first ';' and the text after it. */
  function CutField(s: string): (string, string) {
    if s == "" then ("", "")
    else if s[0] == ';' then ("", s[1..])
    else ([s[0]] + CutField(s[1..]).0, CutField(s[1..]).1)
  }

  lemma {:induction false} CutAt(s: string, t: string)
    requires OneField(s)
    ensures CutField(s + (";" + t)) == (s, t)
  {
    if s == "" {
      assert s + (";" + t) == ";" + t && (";" + t)[1..] == t;
    } else {
      CutAt(s[1..], t);
      var u := s + (";" + t);
      assert u[1..] == s[1..] + (";" + t) && u[0] == s[0];
      assert CutField(u) == ([s[0]] + CutField(u[1..]).0, CutField(u[1..]).1);
      assert [s[0]] + s[1..] == s;
    }
  }

  /** All fields. */
  function Fields(s: string): (r: seq<string>)
    ensures |r| >= 1
  {
    if s == "" then [""]
    else
      var r := Fields(s[1..]);
      if s[0] == ';' then [""] + r else [[s[0]] + r[0]] + r[1..]
  }

  lemma {:induction false} FirstField(s: string, t: string)
    requires OneField(s)
    ensures Fields(s + (";" + t)) == [s] + Fields(t)
  {
    if s == "" {
      assert s + (";" + t) == ";" + t && (";" + t)[1..] == t;
    } else {
      FirstField(s[1..], t);
      var u := s + (";" + t);
      assert u[1..] == s[1..] + (";" + t) && u[0] == s[0];
      assert [s[0]] + s[1..] == s;
    }
  }

  lemma {:induction false} OnlyField(s: string)
    requires OneField(s)
    ensures Fields(s) == [s]
  {
    if s != "" {
      OnlyField(s[1..]);
      assert [s[0]] + s[1..] == s;
    }
  }

  /** The command in quotes that is cut into `fields`. */
  ghost predicate IsCommand(command: string, fields: seq<string>) {
    && |command| >= 2 && command[0] == '"' && command[|command| - 1] == '"'
    && Fields(command[1..|command| - 1]) == fields
  }

  lemma InQuotes(body: string)
    ensures IsCommand("\"" + body + "\"", Fields(body))
  {
    var f := "\"" + body + "\"";
    assert f[1..|f| - 1] == body;
  }

  lemma ThreeFields(a: string, b: string, c: string)
    requires OneField(a) && OneField(b) && OneField(c)
    ensures Fields(a + (";" + (b + (";" + c)))) == [a, b, c]
  {
    OnlyField(c);
    FirstField(b, c);
    FirstField(a, b + (";" + c));
  }

  lemma FiveFields(a: string, b: string, c: string, d: string, e: string)
    requires OneField(a) && OneField(b) && OneField(c) && OneField(d) && OneField(e)
    ensures Fields(a + (";" + (b + (";" + (c + (";" + (d + (";" + e)))))))) == [a, b, c, d, e]
  {
    ThreeFields(c, d, e);
    var rest := c + (";" + (d + (";" + e)));
    FirstField(b, rest);
    FirstField(a, b + (";" + rest));
  }
}
