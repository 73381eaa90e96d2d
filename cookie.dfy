/**
 * `getCookie(name)` of the dashboard scripts: split `document.cookie` on
 * `;`, trim each entry, and decode the remainder of the first entry that
 * starts with `name=`.  `decodeURIComponent` is a given function.
 */
module Cookie {
  import opened Wrappers
  import opened Text
  import opened Seqs

  /** A trimmed entry belongs to `name` when its first |name| + 1 characters are `name=`. */
  predicate EntryMatches(entry: string, name: string) {
    Head(Trim(entry), |name| + 1) == name + "="
  }

  /** What follows `name=` in the trimmed entry, still encoded. */
  function EntryValue(entry: string, name: string): string {
    From(Trim(entry), |name| + 1)
  }

  ghost predicate FirstMatchAt(entries: seq<string>, name: string, k: int) {
    && 0 <= k < |entries|
    && EntryMatches(entries[k], name)
    && forall j :: 0 <= j < k ==> !EntryMatches(entries[j], name)
  }

  /** No entry belongs to `name`. */
  ghost predicate NoneMatch(entries: seq<string>, name: string) {
    forall k :: 0 <= k < |entries| ==> !EntryMatches(entries[k], name)
  }

  /** For each entry, whether it belongs to `name`. */
  function MatchFlags(entries: seq<string>, name: string): (flags: seq<bool>)
    ensures |flags| == |entries|
    ensures forall k :: 0 <= k < |entries| ==> flags[k] == EntryMatches(entries[k], name)
  {
    seq(|entries|, k requires 0 <= k < |entries| => EntryMatches(entries[k], name))
  }

  /** The decoded value of the first matching entry; None when no entry matches. */
  function Lookup(entries: seq<string>, name: string, decode: string -> string): (r: Option<string>)
    ensures r.None? <==> NoneMatch(entries, name)
    ensures forall k :: FirstMatchAt(entries, name, k) ==> r == Some(decode(EntryValue(entries[k], name)))
  {
    var flags := MatchFlags(entries, name);
    match FirstTrue(flags)
    case None => None
    case Some(i) =>
      assert forall k :: FirstMatchAt(entries, name, k) ==> k == i by {
        forall k | FirstMatchAt(entries, name, k) ensures k == i {
          assert flags[k] && flags[i];
          assert EntryMatches(entries[i], name);
        }
      }
      Some(decode(EntryValue(entries[i], name)))
  }

  /** What `getCookie(name)` returns for the cookie string `cookie`. */
  function CookieValue(cookie: string, name: string, decode: string -> string): (r: Option<string>)
    ensures cookie == "" ==> r.None?
    ensures cookie != "" ==> var entries := Split(cookie, ';');
              && (r.None? <==> NoneMatch(entries, name))
              && forall k :: FirstMatchAt(entries, name, k) ==> r == Some(decode(EntryValue(entries[k], name)))
  {
    if cookie == "" then None
    else
      var entries := Split(cookie, ';');
      Lookup(entries, name, decode)
  }

  /** `getCookie(name)`: computes CookieValue. */
  method GetCookie(cookie: string, name: string, decode: string -> string) returns (cookieValue: Option<string>)
    ensures cookieValue == CookieValue(cookie, name, decode)
  {
    cookieValue := None;
    if cookie != "" {
      var cookies := Split(cookie, ';');
      cookieValue := ScanEntries(cookies, name, decode);
    }
  }

  /** The loop of getCookie over the split entries, with its early `break`, computes Lookup. */
  method ScanEntries(cookies: seq<string>, name: string, decode: string -> string) returns (cookieValue: Option<string>)
    ensures cookieValue == Lookup(cookies, name, decode)
  {
    cookieValue := None;
    var i := 0;
    while i < |cookies|
      invariant 0 <= i <= |cookies|
      invariant cookieValue == None
      invariant forall j :: 0 <= j < i ==> !EntryMatches(cookies[j], name)
    {
      var entry := Trim(cookies[i]);
      if Head(entry, |name| + 1) == name + "=" {
        cookieValue := Some(decode(From(entry, |name| + 1)));
        assert FirstMatchAt(cookies, name, i);
        break;
      }
      i := i + 1;
    }
  }

  /** The `document.cookie !== ''` guard only short-cuts: splitting "" finds nothing either. */
  lemma EmptyCookieGuardIsRedundant(name: string, decode: string -> string)
    ensures CookieValue("", name, decode) == None
    ensures Lookup(Split("", ';'), name, decode) == None
  {
    assert Split("", ';') == [""];
    assert Trim("") == "";
  }

  /** The text before the first `=` (all of it when there is none). */
  function KeyOf(s: string): (k: string)
    ensures StartsWith(s, k) && '=' !in k
    ensures |k| == |s| || s[|k|] == '='
    decreases |s|
  {
    if |s| == 0 || s[0] == '=' then "" else [s[0]] + KeyOf(s[1..])
  }

  /** For a name without `=`, "starts with name=" means "has a `=` and the key before it is name". */
  lemma {:induction false} StartsWithKeyIff(s: string, name: string)
    requires '=' !in name
    ensures StartsWith(s, name + "=") <==> ('=' in s && KeyOf(s) == name)
    decreases |s|
  {
    if |name| == 0 {
      assert name + "=" == "=";
      if '=' in s && KeyOf(s) == name {
        assert s[0] == '=';
      }
    } else if |s| > 0 && s[0] == name[0] {
      StartsWithKeyIff(s[1..], name[1..]);
      assert (name + "=")[1..] == name[1..] + "=";
      assert name == [name[0]] + name[1..];
      assert s == [s[0]] + s[1..];
      assert '=' in s <==> '=' in s[1..];
    } else if |s| > 0 && s[0] != '=' {
      assert KeyOf(s)[0] == s[0];
    }
  }

  /**
   * A cookie whose key differs from `name` never answers for it: in
   * particular `csrftoken2=...` is never taken for `csrftoken`.
   */
  lemma OtherKeyNeverMatches(entry: string, name: string)
    requires '=' !in name
    requires KeyOf(Trim(entry)) != name
    ensures !EntryMatches(entry, name)
  {
    HeadMatchesIffStartsWith(Trim(entry), name + "=");
    StartsWithKeyIff(Trim(entry), name);
  }

  /** A well-formed `key=value` pair as a browser lists it in document.cookie. */
  predicate WellFormedPair(p: (string, string)) {
    && |p.0| > 0 && !IsJsWhitespace(p.0[0])
    && '=' !in p.0 && ';' !in p.0 && ';' !in p.1
    && (p.1 == [] || !IsJsWhitespace(p.1[|p.1| - 1]))
  }

  /** The entry of the i-th pair: `k=v` first, ` k=v` after each separator. */
  function EntryText(pairs: seq<(string, string)>, i: nat): string
    requires i < |pairs|
  {
    (if i == 0 then "" else " ") + pairs[i].0 + "=" + pairs[i].1
  }

  /** The document.cookie string that lists `pairs` separated by "; ". */
  function CookieHeader(pairs: seq<(string, string)>): string
    requires |pairs| >= 1
  {
    Join(seq(|pairs|, i requires 0 <= i < |pairs| => EntryText(pairs, i)), ';')
  }

  /** The value of the first pair whose key is `name`. */
  function FirstValue(pairs: seq<(string, string)>, name: string): Option<string>
    decreases |pairs|
  {
    if |pairs| == 0 then None
    else if pairs[0].0 == name then Some(pairs[0].1)
    else FirstValue(pairs[1..], name)
  }

  lemma TrimOfEntry(pad: string, p: (string, string))
    requires AllWhitespace(pad) && WellFormedPair(p)
    ensures Trim(pad + p.0 + "=" + p.1) == p.0 + "=" + p.1
  {
    var t := p.0 + "=" + p.1;
    assert t[0] == p.0[0];
    assert t[|t| - 1] == if p.1 == [] then '=' else p.1[|p.1| - 1];
    assert pad + p.0 + "=" + p.1 == pad + t + "";
    TrimOfPadded(pad, t, "");
  }

  lemma KeyValueMatches(k: string, v: string, name: string)
    requires '=' !in k && '=' !in name
    ensures Head(k + "=" + v, |name| + 1) == name + "=" <==> k == name
    ensures k == name ==> From(k + "=" + v, |name| + 1) == v
  {
    var t := k + "=" + v;
    HeadMatchesIffStartsWith(t, name + "=");
    StartsWithKeyIff(t, name);
    KeyOfKeyValue(k, v);
    assert t[|k|] == '=';
  }

  lemma EntryOfPair(pad: string, p: (string, string), name: string)
    requires AllWhitespace(pad) && WellFormedPair(p) && '=' !in name
    ensures EntryMatches(pad + p.0 + "=" + p.1, name) <==> p.0 == name
    ensures p.0 == name ==> EntryValue(pad + p.0 + "=" + p.1, name) == p.1
  {
    TrimOfEntry(pad, p);
    KeyValueMatches(p.0, p.1, name);
  }

  lemma {:induction false} KeyOfKeyValue(k: string, v: string)
    requires '=' !in k
    ensures KeyOf(k + "=" + v) == k
    decreases |k|
  {
    if |k| > 0 {
      assert (k + "=" + v)[1..] == k[1..] + "=" + v;
      KeyOfKeyValue(k[1..], v);
      assert k == [k[0]] + k[1..];
    }
  }

  /** The flags of the entries after the first are the flags after the first. */
  lemma MatchFlagsTail(entries: seq<string>, name: string)
    requires |entries| > 0
    ensures MatchFlags(entries[1..], name) == MatchFlags(entries, name)[1..]
  {
    var flags := MatchFlags(entries, name);
    var tail := MatchFlags(entries[1..], name);
    forall k | 0 <= k < |tail| ensures tail[k] == flags[1..][k] {
      assert entries[1..][k] == entries[k + 1];
    }
  }

  /** The lookup takes the first entry when it matches, and looks further otherwise. */
  lemma LookupCons(entries: seq<string>, name: string, decode: string -> string)
    requires |entries| > 0
    ensures Lookup(entries, name, decode) ==
              if EntryMatches(entries[0], name) then Some(decode(EntryValue(entries[0], name)))
              else Lookup(entries[1..], name, decode)
  {
    MatchFlagsTail(entries, name);
    var tail := MatchFlags(entries[1..], name);
    match FirstTrue(tail)
    case None =>
    case Some(j) =>
      assert entries[1..][j] == entries[j + 1];
  }

  /** `entry` is the pair `p` written as `k=v`, after some whitespace. */
  ghost predicate PaddedPair(entry: string, p: (string, string)) {
    exists pad :: AllWhitespace(pad) && entry == pad + p.0 + "=" + p.1
  }

  lemma {:induction false} LookupOfEntries(entries: seq<string>, pairs: seq<(string, string)>, name: string,
                                           decode: string -> string)
    requires |entries| == |pairs| && '=' !in name
    requires forall i :: 0 <= i < |pairs| ==> WellFormedPair(pairs[i])
    requires forall i :: 0 <= i < |pairs| ==> PaddedPair(entries[i], pairs[i])
    ensures Lookup(entries, name, decode) ==
              match FirstValue(pairs, name) case None => None case Some(v) => Some(decode(v))
    decreases |pairs|
  {
    if |pairs| > 0 {
      var pad :| AllWhitespace(pad) && entries[0] == pad + pairs[0].0 + "=" + pairs[0].1;
      EntryOfPair(pad, pairs[0], name);
      LookupCons(entries, name, decode);
      forall i | 0 <= i < |pairs| - 1 ensures PaddedPair(entries[1..][i], pairs[1..][i]) {
        assert entries[1..][i] == entries[i + 1] && pairs[1..][i] == pairs[i + 1];
      }
      LookupOfEntries(entries[1..], pairs[1..], name, decode);
    }
  }

  /**
   * Round trip: reading `name` back from a cookie string made of
   * well-formed pairs yields the decoded value of the first pair with that
   * key, and nothing when no pair has it.
   */
  lemma CookieHeaderLookup(pairs: seq<(string, string)>, name: string, decode: string -> string)
    requires |pairs| >= 1 && '=' !in name
    requires forall i :: 0 <= i < |pairs| ==> WellFormedPair(pairs[i])
    ensures CookieValue(CookieHeader(pairs), name, decode) ==
              match FirstValue(pairs, name) case None => None case Some(v) => Some(decode(v))
  {
    var entries := seq(|pairs|, i requires 0 <= i < |pairs| => EntryText(pairs, i));
    forall i | 0 <= i < |entries| ensures ';' !in entries[i] {
      assert entries[i] == EntryText(pairs, i);
    }
    SplitJoin(entries, ';');
    forall i | 0 <= i < |pairs|
      ensures PaddedPair(entries[i], pairs[i])
    {
      var pad := if i == 0 then "" else " ";
      assert AllWhitespace(pad) && entries[i] == pad + pairs[i].0 + "=" + pairs[i].1;
    }
    LookupOfEntries(entries, pairs, name, decode);
    assert |pairs[0].0| > 0;
    assert |entries[0]| > 0;
  }
}
