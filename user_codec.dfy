/** The text form of the user snapshot kept under the session store's user
    key. The client uses `JSON.stringify` to write it and `JSON.parse` to
    read it back, treating a parse failure as "no user". This model replaces
    JSON by a length-prefixed encoding with the two properties the client
    relies on: reading back what was written gives the same user, and
    malformed text is rejected. Each field is written as one '#' per
    character, a '.', then the characters themselves. */
module UserCodec {
  import opened Types

  function Repeat(c: char, n: nat): (r: string)
    ensures |r| == n
    ensures forall i :: 0 <= i < n ==> r[i] == c
  {
    if n == 0 then [] else [c] + Repeat(c, n - 1)
  }

  /** The number of consecutive `c` at the start of `s`. */
  function LeadingCount(s: string, c: char): (n: nat)
    ensures n <= |s|
    ensures forall i :: 0 <= i < n ==> s[i] == c
    ensures n < |s| ==> s[n] != c
  {
    if s != [] && s[0] == c then 1 + LeadingCount(s[1..], c) else 0
  }

  function EncodeField(field: string): string
  {
    Repeat('#', |field|) + "." + field
  }

  /** Reads one field off the front of `s`, returning it and what follows. */
  function DecodeField(s: string): Option<(string, string)>
  {
    var n := LeadingCount(s, '#');
    if n < |s| && s[n] == '.' && 2 * n + 1 <= |s| then Some((s[n + 1..2 * n + 1], s[2 * n + 1..]))
    else None
  }

  /** `JSON.stringify(user)`; never the empty string. */
  function EncodeUser(user: User): (text: string)
    ensures text != ""
  {
    EncodeField(user.id) + EncodeField(user.username) + EncodeField(user.email) + EncodeField(user.role)
  }

  /** `JSON.parse(text)` for a user snapshot: None when the text is not
      exactly four encoded fields. Only the text written for some user
      decodes, and it decodes to that user (`UserRoundTrip`). */
  function DecodeUser(text: string): (r: Option<User>)
    ensures r.Some? ==> text == EncodeUser(r.value)
  {
    var id := DecodeField(text);
    if id.None? then None
    else
      var username := DecodeField(id.value.1);
      if username.None? then None
      else
        var email := DecodeField(username.value.1);
        if email.None? then None
        else
          var role := DecodeField(email.value.1);
          if role.None? || role.value.1 != "" then None
          else
            DecodeFieldShape(text);
            DecodeFieldShape(id.value.1);
            DecodeFieldShape(username.value.1);
            DecodeFieldShape(email.value.1);
            FieldsMakeUser(text, id.value.0, username.value.0, email.value.0, role.value.0,
                           id.value.1, username.value.1, email.value.1);
            Some(User(id.value.0, username.value.0, email.value.0, role.value.0))
  }

  /** Whatever one field decodes from is that field's encoding followed by
      the rest. */
  lemma DecodeFieldShape(s: string)
    requires DecodeField(s).Some?
    ensures s == EncodeField(DecodeField(s).value.0) + DecodeField(s).value.1
  {
    var n := LeadingCount(s, '#');
    assert s[..n] == Repeat('#', n);
    assert s == s[..n] + [s[n]] + s[n + 1..2 * n + 1] + s[2 * n + 1..];
  }

  /** Four encoded fields in a row, with nothing after them, are the text of
      the user made of those fields. */
  lemma FieldsMakeUser(text: string, id: string, username: string, email: string, role: string,
                       afterId: string, afterUsername: string, afterEmail: string)
    requires text == EncodeField(id) + afterId
    requires afterId == EncodeField(username) + afterUsername
    requires afterUsername == EncodeField(email) + afterEmail
    requires afterEmail == EncodeField(role) + ""
    ensures text == EncodeUser(User(id, username, email, role))
  {
    var e1, e2, e3, e4 := EncodeField(id), EncodeField(username), EncodeField(email), EncodeField(role);
    assert afterEmail == e4;
    assert text == e1 + (e2 + (e3 + e4));
    assert e1 + (e2 + (e3 + e4)) == e1 + e2 + e3 + e4;
  }

  /** One encoded field is read back exactly, leaving what followed it. */
  lemma FieldRoundTrip(field: string, rest: string)
    ensures DecodeField(EncodeField(field) + rest) == Some((field, rest))
  {
    var n := |field|;
    var s := EncodeField(field) + rest;
    assert s == Repeat('#', n) + ("." + field + rest);
    LeadingRepeat(n, "." + field + rest);
    assert s[n + 1..2 * n + 1] == field;
    assert s[2 * n + 1..] == rest;
  }

  lemma {:induction false} LeadingRepeat(n: nat, rest: string)
    requires rest != [] && rest[0] != '#'
    ensures LeadingCount(Repeat('#', n) + rest, '#') == n
  {
    if n > 0 {
      assert (Repeat('#', n) + rest)[1..] == Repeat('#', n - 1) + rest;
      LeadingRepeat(n - 1, rest);
    }
  }

  /** Reading back a written snapshot gives the same user. */
  lemma UserRoundTrip(user: User)
    ensures DecodeUser(EncodeUser(user)) == Some(user)
  {
    var e1, e2, e3, e4 := EncodeField(user.id), EncodeField(user.username), EncodeField(user.email), EncodeField(user.role);
    assert EncodeUser(user) == e1 + (e2 + (e3 + (e4 + "")));
    FieldRoundTrip(user.id, e2 + (e3 + (e4 + "")));
    FieldRoundTrip(user.username, e3 + (e4 + ""));
    FieldRoundTrip(user.email, e4 + "");
    FieldRoundTrip(user.role, "");
  }

  /** Empty and truncated text, which `JSON.parse` rejects as well, reads
      back as no user. */
  lemma MalformedIsRejected()
    ensures DecodeUser("") == None
    ensures DecodeUser("{\"id\":") == None
  {
    assert LeadingCount("", '#') == 0;
    var truncated := "{\"id\":";
    assert truncated[0] == '{';
    assert LeadingCount(truncated, '#') == 0;
    assert DecodeField(truncated) == None;
  }
}
