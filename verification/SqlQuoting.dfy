/**
 Quoting in PostgreSQL statements. A quoted literal or identifier is read by the doubled-quote
 rule of ISO/IEC 9075-2, sections 5.2 and 5.3: two quote characters stand for one, a single one
 ends the token.
 */
module SqlQuoting {
  import opened Wrappers

  /** Every quote character doubled. */
  function Escape(quote: char, s: string): string {
    if s == "" then ""
    else (if s[0] == quote then [quote, quote] else [s[0]]) + Escape(quote, s[1..])
  }

  function EscapeSqlLiteral(s: string): string {
    Escape('\'', s)
  }

  function EscapeSqlIdentifier(s: string): string {
    Escape('"', s)
  }

  /** What follows an opening quote: the text up to the closing one, and what comes after it. */
  function ReadQuoted(quote: char, text: string): Option<(string, string)> {
    if text == "" then None
    else if text[0] == quote && !(1 < |text| && text[1] == quote) then Some(("", text[1..]))
    else
      var tail := ReadQuoted(quote, text[if text[0] == quote then 2 else 1..]);
      if tail.None? then None else Some(([text[0]] + tail.value.0, tail.value.1))
  }

  predicate Continues(quote: char, rest: string) {
    rest != "" && rest[0] == quote
  }

  lemma {:induction false} PrintedReadsBack(quote: char, s: string, rest: string)
    requires !Continues(quote, rest)
    ensures ReadQuoted(quote, Escape(quote, s) + [quote] + rest) == Some((s, rest))
  {
    var text := Escape(quote, s) + [quote] + rest;
    if s == "" {
      assert text == [quote] + rest && text[1..] == rest;
    } else {
      PrintedReadsBack(quote, s[1..], rest);
      var tail := Escape(quote, s[1..]) + [quote] + rest;
      assert text == (if s[0] == quote then [quote, quote] else [s[0]]) + tail;
      assert text[if s[0] == quote then 2 else 1..] == tail;
      assert [s[0]] + s[1..] == s;
    }
  }

  lemma {:induction false} ReadPrintsBack(quote: char, text: string)
    requires ReadQuoted(quote, text).Some?
    ensures var (s, rest) := ReadQuoted(quote, text).value;
            text == Escape(quote, s) + [quote] + rest && !Continues(quote, rest)
  {
    if text[0] == quote && !(1 < |text| && text[1] == quote) {
      assert text == [quote] + text[1..];
    } else {
      var skip := if text[0] == quote then 2 else 1;
      ReadPrintsBack(quote, text[skip..]);
      var (s, rest) := ReadQuoted(quote, text[skip..]).value;
      assert ([text[0]] + s)[1..] == s;
      assert text == text[..skip] + text[skip..];
      assert text[..skip] == if text[0] == quote then [quote, quote] else [text[0]];
    }
  }

  /** The round trip, for every string: an escaped text between quotes reads back as that text and
      leaves the continuation if and only if the continuation does not start with the quote. */
  lemma RoundTripIff(quote: char, s: string, rest: string)
    ensures ReadQuoted(quote, Escape(quote, s) + [quote] + rest) == Some((s, rest)) <==> !Continues(quote, rest)
  {
    if Continues(quote, rest) {
      if ReadQuoted(quote, Escape(quote, s) + [quote] + rest).Some? {
        ReadPrintsBack(quote, Escape(quote, s) + [quote] + rest);
      }
    } else {
      PrintedReadsBack(quote, s, rest);
    }
  }

  // ---- The statements that name a role and a password ----

  /** A statement of the shape: verb "role" clause 'password'; */
  datatype Form = Form(verb: string, clause: string)

  const CREATE_ROLE := Form("CREATE ROLE ", " WITH LOGIN PASSWORD ")

  const ALTER_ROLE := Form("ALTER ROLE ", " WITH PASSWORD ")

  function Print(form: Form, role: string, password: string): string {
    form.verb + ("\"" + EscapeSqlIdentifier(role) + "\""
                 + (form.clause + ("'" + EscapeSqlLiteral(password) + "'" + ";")))
  }

  /** Any statement of that shape, piece by piece. */
  lemma FormSpells(form: Form, role: string, password: string)
    ensures Print(form, role, password)
            == (form.verb + "\"") + Escape('"', role) + ("\"" + form.clause + "'") + Escape('\'', password) + "';"
  {
    hide Escape;
    var r, p := Escape('"', role), Escape('\'', password);
    assert "'" + ";" == "';";
    var last := "'" + p + "'" + ";";
    assert last == "'" + (p + "';");
    assert form.clause + last == (form.clause + "'") + (p + "';");
    assert "\"" + r + "\"" + (form.clause + last) == "\"" + r + ("\"" + form.clause + "'") + (p + "';");
  }

  lemma CreateRoleWords()
    ensures CREATE_ROLE.verb + "\"" == "CREATE ROLE \""
    ensures "\"" + CREATE_ROLE.clause + "'" == "\" WITH LOGIN PASSWORD '"
  {
  }

  lemma AlterRoleWords()
    ensures ALTER_ROLE.verb + "\"" == "ALTER ROLE \""
    ensures "\"" + ALTER_ROLE.clause + "'" == "\" WITH PASSWORD '"
  {
  }

  /** The two statements in full: creating a role with a login, and changing its password. */
  lemma StatementsSpell(role: string, password: string)
    ensures Print(CREATE_ROLE, role, password)
            == "CREATE ROLE \"" + Escape('"', role) + "\" WITH LOGIN PASSWORD '" + Escape('\'', password) + "';"
    ensures Print(ALTER_ROLE, role, password)
            == "ALTER ROLE \"" + Escape('"', role) + "\" WITH PASSWORD '" + Escape('\'', password) + "';"
  {
    hide *;
    CreateRoleWords();
    AlterRoleWords();
    FormSpells(CREATE_ROLE, role, password);
    FormSpells(ALTER_ROLE, role, password);
  }

  function After(prefix: string, text: string): Option<string> {
    if prefix <= text then Some(text[|prefix|..]) else None
  }

  /** Reads a statement of the form back into its role and password. */
  function Parse(form: Form, text: string): Option<(string, string)> {
    var start := After(form.verb + "\"", text);
    if start.None? then None
    else
      var role := ReadQuoted('"', start.value);
      if role.None? then None
      else
        var clause := After(form.clause + "'", role.value.1);
        if clause.None? then None
        else
          var password := ReadQuoted('\'', clause.value);
          if password.None? || password.value.1 != ";" then None
          else Some((role.value.0, password.value.0))
  }

  lemma AfterPrefix(prefix: string, text: string)
    ensures After(prefix, prefix + text) == Some(text)
  {
    assert (prefix + text)[|prefix|..] == text;
  }

  lemma FormReadsBack(form: Form, role: string, password: string)
    requires form.clause != "" && form.clause[0] != '"'
    ensures Parse(form, Print(form, role, password)) == Some((role, password))
  {
    hide ReadQuoted, Escape;
    var last := EscapeSqlLiteral(password) + "'" + ";";
    var tail := form.clause + ("'" + last);
    assert Print(form, role, password) == (form.verb + "\"") + (EscapeSqlIdentifier(role) + "\"" + tail);
    AfterPrefix(form.verb + "\"", EscapeSqlIdentifier(role) + "\"" + tail);
    assert tail[0] == form.clause[0];
    PrintedReadsBack('"', role, tail);
    assert tail == (form.clause + "'") + last;
    AfterPrefix(form.clause + "'", last);
    PrintedReadsBack('\'', password, ";");
  }

  /** Whatever characters a role name and a password hold, the printed statement is read as naming
      exactly that role and that password. */
  lemma StatementReadsBack(form: Form, role: string, password: string)
    requires form == CREATE_ROLE || form == ALTER_ROLE
    ensures Parse(form, Print(form, role, password)) == Some((role, password))
  {
    hide Parse, Print;
    assert form.clause[0] == ' ';
    FormReadsBack(form, role, password);
  }

  /** So no two pairs of credentials print the same statement. */
  lemma StatementsTellCredentialsApart(form: Form, role: string, password: string, otherRole: string, otherPassword: string)
    requires form == CREATE_ROLE || form == ALTER_ROLE
    ensures Print(form, role, password) == Print(form, otherRole, otherPassword)
            <==> role == otherRole && password == otherPassword
  {
    StatementReadsBack(form, role, password);
    StatementReadsBack(form, otherRole, otherPassword);
  }
}
