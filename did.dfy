/** `DID`: a decentralized identifier `did:<method>:<method-specific-id>`, parsed with the
    anchored pattern `^did:([a-z0-9]+):([\w.\-%]+)$` and printed by joining its three
    fields with colons.  The accepted language is a reduced form of the DID syntax of
    section 3.1 of W3C DID Core 1.0. */
module DIDs {
  import opened Wrappers
  import opened Text

  /** `schema`, `method` and `methodId` of the Swift struct (`method` is a Dafny keyword). */
  datatype DID = DID(schema: string, methodName: string, methodId: string)

  /** `[a-z0-9]` */
  predicate IsMethodChar(c: char) {
    'a' <= c <= 'z' || '0' <= c <= '9'
  }

  /** `[\w.\-%]`, with `\w` read as ASCII `[A-Za-z0-9_]`. */
  predicate IsIdChar(c: char) {
    'a' <= c <= 'z' || 'A' <= c <= 'Z' || '0' <= c <= '9' || c == '_' || c == '.' || c == '-' || c == '%'
  }

  predicate IsMethod(s: string) {
    |s| > 0 && forall k :: 0 <= k < |s| ==> IsMethodChar(s[k])
  }

  predicate IsMethodId(s: string) {
    |s| > 0 && forall k :: 0 <= k < |s| ==> IsIdChar(s[k])
  }

  /** `description`: the three fields joined by colons. */
  function Description(d: DID): string {
    d.schema + ":" + d.methodName + ":" + d.methodId
  }

  /** `DID(from:)` with the pattern matched against the whole string: `did:`, a method of
      `[a-z0-9]+`, `:`, and an id of `[\w.\-%]+` reaching the end.  The id cannot contain
      a colon, so the split at the first colon after `did:` is the only one possible. */
  function Parse(s: string): (r: Option<DID>)
    ensures r.Some? ==> r.value.schema == "did" && IsMethod(r.value.methodName) && IsMethodId(r.value.methodId)
    ensures r.Some? ==> Description(r.value) == s
  {
    if |s| < 4 || s[..4] != "did:" then None
    else
      var rest := s[4..];
      var i := IndexOfAny(rest, {':'});
      if i == |rest| then None
      else
        var name := rest[..i];
        var id := rest[i + 1..];
        if IsMethod(name) && IsMethodId(id) then
          assert rest == name + ":" + id;
          assert s == "did:" + rest;
          Some(DID("did", name, id))
        else
          None
  }

  /** Printing a well-formed DID and parsing the text gives the DID back. */
  lemma ParseDescription(d: DID)
    requires d.schema == "did" && IsMethod(d.methodName) && IsMethodId(d.methodId)
    ensures Parse(Description(d)) == Some(d)
  {
    var s := Description(d);
    assert s[..4] == "did:";
    var rest := s[4..];
    assert rest == d.methodName + ":" + d.methodId;
    IndexOfAnyIs(rest, {':'}, |d.methodName|);
    assert rest[..|d.methodName|] == d.methodName;
    assert rest[|d.methodName| + 1..] == d.methodId;
  }

  /** Parsing succeeds exactly on `did:` + method + `:` + id with both parts in their
      character classes. */
  lemma ParseAcceptsExactly(s: string)
    ensures Parse(s).Some? <==>
      exists m, id :: IsMethod(m) && IsMethodId(id) && s == "did:" + m + ":" + id
  {
    if Parse(s).Some? {
      var d := Parse(s).value;
      assert s == "did:" + d.methodName + ":" + d.methodId;
    }
    if exists m, id :: IsMethod(m) && IsMethodId(id) && s == "did:" + m + ":" + id {
      var m, id :| IsMethod(m) && IsMethodId(id) && s == "did:" + m + ":" + id;
      assert Description(DID("did", m, id)) == s;
      ParseDescription(DID("did", m, id));
    }
  }

  /** A DID given by its two parts parses back to them. */
  lemma ParseParts(m: string, id: string)
    requires IsMethod(m) && IsMethodId(id)
    ensures Parse("did:" + m + ":" + id) == Some(DID("did", m, id))
  {
    assert Description(DID("did", m, id)) == "did:" + m + ":" + id;
    ParseDescription(DID("did", m, id));
  }

  /** With a colon-free method part, parsing is decided by the two character classes. */
  lemma ParseAt(name: string, id: string)
    requires Avoids(name, {':'})
    ensures Parse("did:" + name + ":" + id) ==
      (if IsMethod(name) && IsMethodId(id) then Some(DID("did", name, id)) else None)
  {
    var s := "did:" + name + ":" + id;
    assert s[..4] == "did:";
    assert s[4..] == name + ":" + id;
    IndexOfAnyIs(s[4..], {':'}, |name|);
    assert s[4..][..|name|] == name;
    assert s[4..][|name| + 1..] == id;
  }

  /** Without a second colon there is no DID. */
  lemma ParseNeedsSecondColon(rest: string)
    requires Avoids(rest, {':'})
    ensures Parse("did:" + rest) == None
  {
    var s := "did:" + rest;
    assert s[..4] == "did:";
    assert s[4..] == rest;
    IndexOfAnyIs(rest, {':'}, |rest|);
  }

  /** The DIDs the library's tests expect to be accepted, given by their two parts. */
  lemma ParseAcceptsTestDIDs(s: string, m: string, id: string)
    requires s == "did:" + m + ":" + id
    requires (m, id) in [("example", "123456789abcdefghi"), ("blockchain", "abcd.efgh-ijk%20lmn"),
                         ("test", "1a2b3c"), ("foo", "bar.baz-qux")]
    ensures Parse(s) == Some(DID("did", m, id)) && Description(Parse(s).value) == s
  {
    ParseParts(m, id);
  }

  /** The test strings rejected for their scheme: a missing colon, upper case, no scheme. */
  lemma ParseRejectsTestPrefixes(s: string)
    requires s in ["didexample:123456789abcdefghi", "DID:EXAMPLE:123456789abcdefghi",
                   ":example:123456789abcdefghi"]
    ensures Parse(s) == None
  {
    assert s[..4][0] != "did:"[0] || s[..4][3] != "did:"[3];
  }

  /** The test strings rejected for their parts: an empty method, an id starting with a
      second colon. */
  lemma ParseRejectsTestParts(s: string, m: string, id: string)
    requires s == "did:" + m + ":" + id
    requires (m, id) in [("", "123456789abcdefghi"), ("example", ":123456789abcdefghi")]
    ensures Parse(s) == None
  {
    ParseAt(m, id);
    assert !IsMethod(m) || !IsIdChar(id[0]);
  }

  /** The test string rejected for lacking the colon after the method. */
  lemma ParseRejectsTestNoSecondColon(s: string, rest: string, a: string, b: string)
    requires s == "did:" + rest && rest == a + b && a == "example" && b == "123456789abcdefghi"
    ensures Parse(s) == None
  {
    assert Avoids(a, {':'}) && Avoids(b, {':'});
    AvoidsAppend(a, b, {':'});
    ParseNeedsSecondColon(rest);
  }

  /** `DID(from:)` exactly as written.  Outside multi-line mode ICU's `$` also matches just
      before a line terminator (or CR LF) that ends the input, so such a terminator after
      an otherwise valid DID is accepted and silently dropped. */
  function ParseAsWritten(s: string): (r: Option<DID>)
    ensures r.Some? ==> r.value.schema == "did" && IsMethod(r.value.methodName) && IsMethodId(r.value.methodId)
    ensures r.Some? ==> |Description(r.value)| <= |s| && s[..|Description(r.value)|] == Description(r.value)
    ensures r.Some? ==> IsTrailingTerminator(s[|Description(r.value)|..])
  {
    if Parse(s).Some? then
      assert s[|s|..] == [];
      Parse(s)
    else if |s| >= 2 && s[|s| - 2..] == "\r\n" then
      Parse(s[..|s| - 2])
    else if |s| >= 1 && s[|s| - 1] in LineTerminators then
      assert s[|s| - 1..] == [s[|s| - 1]];
      Parse(s[..|s| - 1])
    else
      None
  }

  /** On any string that does not end in a line terminator the pattern as written and the
      strict reading agree. */
  lemma ParseAsWrittenAgrees(s: string)
    requires s == [] || s[|s| - 1] !in LineTerminators
    ensures ParseAsWritten(s) == Parse(s)
  {
  }

  /** A well-formed DID followed by anything that is not an id character does not parse. */
  lemma ParseRejectsSuffix(d: DID, t: string)
    requires d.schema == "did" && IsMethod(d.methodName) && IsMethodId(d.methodId)
    requires t != [] && !IsIdChar(t[0])
    ensures Parse(Description(d) + t) == None
  {
    var m, id := d.methodName, d.methodId;
    assert Description(d) + t == "did:" + m + ":" + (id + t);
    ParseAt(m, id + t);
    assert (id + t)[|id|] == t[0];
  }

  /** Conversely, the pattern as written accepts every well-formed DID followed by a line
      terminator or CR LF, which the strict reading rejects. */
  lemma ParseAsWrittenAcceptsTerminator(d: DID, t: string)
    requires d.schema == "did" && IsMethod(d.methodName) && IsMethodId(d.methodId)
    requires t != [] && IsTrailingTerminator(t)
    ensures Parse(Description(d) + t) == None
    ensures ParseAsWritten(Description(d) + t) == Some(d)
  {
    var s := Description(d) + t;
    ParseRejectsSuffix(d, t);
    ParseDescription(d);
    if t == "\r\n" {
      assert s[..|s| - 2] == Description(d);
    } else {
      assert s[|s| - 2] == d.methodId[|d.methodId| - 1];
      assert s[..|s| - 1] == Description(d);
    }
  }

  /** The discrepancy: `did:example:123` followed by a newline is accepted, and its
      description no longer reproduces the input. */
  lemma ParseAsWrittenDropsNewline(s: string)
    requires s == "did:example:123\n"
    ensures Parse(s) == None
    ensures ParseAsWritten(s) == Some(DID("did", "example", "123"))
    ensures Description(ParseAsWritten(s).value) != s
  {
    var d := DID("did", "example", "123");
    assert s == Description(d) + "\n";
    ParseAsWrittenAcceptsTerminator(d, "\n");
  }
}
