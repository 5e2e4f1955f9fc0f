/** `getCookie(name)` of vendas.js, which the finalize request uses to read
    the CSRF token: `document.cookie` is split at `;`, each piece is trimmed,
    and the first piece that starts with `name=` gives its remainder, passed
    through `decodeURIComponent`. The cookie string is a parameter here. */
module Cookies {
  import opened Wrappers
  import opened JsStrings
  import opened UriDecoding

  /** `null` (no such cookie), the decoded value, or the URIError that
      `decodeURIComponent` throws on a malformed value. */
  datatype CookieLookup = Absent | Found(value: string) | Malformed

  /** Whether a trimmed piece of the cookie string is the entry for `name`. */
  predicate IsEntryFor(piece: string, name: string) {
    name + "=" <= Trim(piece)
  }

  /** The decoded value of the entry for `name`, given that entry. */
  function EntryValue(piece: string, name: string): CookieLookup
    requires IsEntryFor(piece, name)
  {
    match UriDecode(Trim(piece)[|name| + 1..])
    case Some(v) => Found(v)
    case None => Malformed
  }

  /** The answer read from the first piece that is the entry for `name`. */
  function Lookup(pieces: seq<string>, name: string): (r: CookieLookup)
    ensures !r.Absent? ==> exists j :: 0 <= j < |pieces| && IsEntryFor(pieces[j], name)
  {
    if pieces == [] then Absent
    else if IsEntryFor(pieces[0], name) then EntryValue(pieces[0], name)
    else
      var r := Lookup(pieces[1..], name);
      if !r.Absent? then
        var j :| 0 <= j < |pieces[1..]| && IsEntryFor(pieces[1..][j], name);
        assert pieces[j + 1] == pieces[1..][j];
        r
      else r
  }

  /** What `getCookie(name)` returns for the cookie string `jar`. */
  function CookieValue(jar: string, name: string): (r: CookieLookup)
    ensures r == Lookup(Split(jar, ';'), name)
  {
    if jar == "" then Absent else Lookup(Split(jar, ';'), name)
  }

  /** The loop of `getCookie`, leaving at the first match. */
  method GetCookie(jar: string, name: string) returns (r: CookieLookup)
    ensures r == CookieValue(jar, name)
  {
    r := Absent;
    if jar != "" {
      var cookies := Split(jar, ';');
      var i := 0;
      while i < |cookies|
        invariant 0 <= i <= |cookies|
        invariant r == Absent
        invariant Lookup(cookies[i..], name) == Lookup(cookies, name)
      {
        var cookie := Trim(cookies[i]);
        if name + "=" <= cookie {
          var decoded := UriDecode(cookie[|name| + 1..]);
          r := if decoded.Some? then Found(decoded.value) else Malformed;
          break;
        }
        assert cookies[i..][1..] == cookies[i + 1..];
        i := i + 1;
      }
    }
  }

  /** The lookup is Absent exactly when no piece is the entry for `name`,
      and otherwise it is the value of the first piece that is. */
  lemma {:induction false} LookupFirstMatch(pieces: seq<string>, name: string)
    ensures Lookup(pieces, name) == Absent <==> forall i :: 0 <= i < |pieces| ==> !IsEntryFor(pieces[i], name)
    ensures forall k :: 0 <= k < |pieces| && IsEntryFor(pieces[k], name)
                        && (forall j :: 0 <= j < k ==> !IsEntryFor(pieces[j], name)) ==>
              Lookup(pieces, name) == EntryValue(pieces[k], name)
  {
    if pieces != [] {
      LookupFirstMatch(pieces[1..], name);
      assert forall i :: 1 <= i < |pieces| ==> pieces[i] == pieces[1..][i - 1];
      forall k | 0 <= k < |pieces| && IsEntryFor(pieces[k], name)
                 && (forall j :: 0 <= j < k ==> !IsEntryFor(pieces[j], name))
        ensures Lookup(pieces, name) == EntryValue(pieces[k], name)
      {
        if k > 0 {
          assert forall j :: 0 <= j < k - 1 ==> pieces[1..][j] == pieces[j + 1];
        }
      }
    }
  }

  /** An entry `name=value` whose value holds no `%` is found with that
      value when no earlier piece is an entry for `name`. */
  lemma FindsPlainValue(pieces: seq<string>, name: string, k: nat, value: string)
    requires k < |pieces| && pieces[k] == name + "=" + value
    requires forall j :: 0 <= j < k ==> !IsEntryFor(pieces[j], name)
    requires '%' !in value
    requires name == [] || !IsWhitespace(name[0])
    requires value == [] || !IsWhitespace(value[|value| - 1])
    ensures Lookup(pieces, name) == Found(value)
  {
    var piece := name + "=" + value;
    TrimKeeps(piece);
    assert name + "=" <= piece;
    assert piece[|name| + 1..] == value;
    UriDecodeNoEscapes(value);
    LookupFirstMatch(pieces, name);
  }
}
