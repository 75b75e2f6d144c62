/** Profile-page detection and scraping, extension/contents/lib/profile.ts.
    Every DOM lookup is an input: whether a profile header or a
    `.vcard-names` element is present, and the text content of the
    `.vcard-username` and full-name elements when they exist. */
module Profile {
  import opened Common

  /** `pathname.split("/").filter(Boolean)`: the non-empty pieces of the
      path between slashes. */
  function Segments(pathname: string): (segs: seq<string>)
    ensures forall s :: s in segs ==> s != "" && '/' !in s
  {
    var segs := Without(Split(pathname, "/"), "");
    SplitPiecesHaveNoSeparator(pathname);
    segs
  }

  lemma {:induction false} SplitPiecesHaveNoSeparator(s: string)
    ensures forall p :: p in Split(s, "/") ==> '/' !in p
    decreases |s|
  {
    match IndexOf(s, "/", 0)
    case None =>
      forall k | 0 <= k < |s| ensures s[k] != '/' { assert !OccursAt(s, "/", k); }
    case Some(i) =>
      SplitPiecesHaveNoSeparator(s[i + 1..]);
      forall k | 0 <= k < i ensures s[k] != '/' { assert !OccursAt(s, "/", k); }
  }

  /** First path segments that belong to the site, not to a user. */
  const NonProfilePaths: seq<string> := [
    "settings", "notifications", "explore", "marketplace", "pulls", "issues",
    "codespaces", "sponsors", "login", "signup", "organizations", "orgs",
    "new", "features"
  ]

  /** `isProfilePage()`: a path of one or two segments whose first segment is
      not reserved, on a page that shows a profile header or vcard names. */
  function IsProfilePage(pathname: string, hasProfileHeader: bool, hasVcardNames: bool): (r: bool)
    ensures r ==> 1 <= |Segments(pathname)| <= 2
    ensures r ==> Segments(pathname)[0] !in NonProfilePaths
    ensures r ==> hasProfileHeader || hasVcardNames
    ensures (1 <= |Segments(pathname)| <= 2 && Segments(pathname)[0] !in NonProfilePaths
             && (hasProfileHeader || hasVcardNames)) ==> r
  {
    var segments := Segments(pathname);
    if |segments| == 0 || |segments| > 2 then false
    else if segments[0] in NonProfilePaths then false
    else hasProfileHeader || hasVcardNames
  }

  /** The path of a user's profile, `/name` with or without a trailing
      slash, has the single segment `name`. */
  lemma SegmentsOfProfilePath(name: string, trailingSlash: bool)
    requires name != "" && '/' !in name
    ensures Segments("/" + name + (if trailingSlash then "/" else "")) == [name]
  {
    if trailingSlash {
      SegmentsWithSlash(name);
    } else {
      SegmentsWithoutSlash(name);
      assert "/" + name + "" == "/" + name;
    }
  }

  /** No separator occurs in the first |name| places of a string that
      starts with a slash-free name. */
  lemma NameHasNoSlash(rest: string, name: string)
    requires '/' !in name && |name| <= |rest| && rest[..|name|] == name
    ensures forall j :: 0 <= j < |name| ==> !OccursAt(rest, "/", j)
  {
    forall j | 0 <= j < |name| ensures !OccursAt(rest, "/", j) {
      assert rest[j] == name[j];
    }
  }

  lemma SegmentsWithoutSlash(name: string)
    requires name != "" && '/' !in name
    ensures Segments("/" + name) == [name]
  {
    var path := "/" + name;
    assert OccursAt(path, "/", 0);
    assert path[1..] == name;
    NameHasNoSlash(name, name);
    assert IndexOf(name, "/", 0) == None;
    assert Split(path, "/") == ["", name];
    assert ["", name][1..] == [name] && [name][1..] == [];
    assert Without(["", name], "") == [name];
  }

  lemma SegmentsWithSlash(name: string)
    requires name != "" && '/' !in name
    ensures Segments("/" + name + "/") == [name]
  {
    var path := "/" + name + "/";
    assert OccursAt(path, "/", 0);
    var rest := path[1..];
    var n := |name|;
    assert rest == name + "/" && rest[..n] == name;
    NameHasNoSlash(rest, name);
    assert OccursAt(rest, "/", n);
    assert IndexOf(rest, "/", 0) == Some(n);
    assert rest[n + 1..] == "";
    assert IndexOf("", "/", 0) == None;
    assert Split(rest, "/") == [name, ""];
    assert Split(path, "/") == ["", name, ""];
    assert ["", name, ""][1..] == [name, ""] && [name, ""][1..] == [""] && [""][1..] == [];
    assert Without([""], "") == [];
    assert Without([name, ""], "") == [name] + Without([""], "");
    assert Without(["", name, ""], "") == [name];
  }

  /** A user's profile page is recognised exactly when the user name is not
      one of the reserved first segments and the page shows profile
      markup. */
  lemma ProfilePathRecognised(name: string, hasProfileHeader: bool, hasVcardNames: bool)
    requires name != "" && '/' !in name
    ensures IsProfilePage("/" + name, hasProfileHeader, hasVcardNames)
            <==> name !in NonProfilePaths && (hasProfileHeader || hasVcardNames)
  {
    SegmentsOfProfilePath(name, false);
    assert "/" + name + "" == "/" + name;
  }

  /** `s.replace("@", "")`: the first `@` removed, the rest kept. */
  function RemoveFirstAt(s: string): (r: string)
    ensures '@' !in s ==> r == s
    ensures '@' in s ==> |r| == |s| - 1
  {
    if s == [] then []
    else if s[0] == '@' then s[1..]
    else [s[0]] + RemoveFirstAt(s[1..])
  }

  /** `r` is `s` with the `@` at `k`, its first one, taken out. */
  predicate RemovedAt(s: string, k: int, r: string) {
    0 <= k < |s| && s[k] == '@' && '@' !in s[..k] && r == s[..k] + s[k + 1..]
  }

  /** With an `@` in the text, exactly the first one is removed: the text
      before it, which has no `@`, followed by the text after it. */
  lemma {:induction false} RemoveFirstAtMeaning(s: string)
    requires '@' in s
    ensures exists k :: RemovedAt(s, k, RemoveFirstAt(s))
  {
    if s[0] == '@' {
      assert s[..0] == [] && s[0 + 1..] == s[1..];
      assert RemovedAt(s, 0, RemoveFirstAt(s));
    } else {
      var t := s[1..];
      assert '@' in t;
      RemoveFirstAtMeaning(t);
      var k :| RemovedAt(t, k, RemoveFirstAt(t));
      assert [s[0]] + t == s;
      RemovedAtCons(s[0], t, k, RemoveFirstAt(t));
    }
  }

  lemma RemovedAtCons(c: char, t: string, k: int, r: string)
    requires c != '@' && RemovedAt(t, k, r)
    ensures RemovedAt([c] + t, k + 1, [c] + r)
  {
    var s := [c] + t;
    assert s[..k + 1] == [c] + t[..k];
    assert s[k + 1 + 1..] == t[k + 1..];
  }

  /** `getProfileUsername()`. `vcardText` is the text of the
      `.vcard-username` element when there is one: then the trimmed text
      without its first `@` is the answer, or null when that is empty, and
      the path is not consulted. Otherwise the first path segment, or null. */
  function GetProfileUsername(vcardText: Option<string>, pathname: string): (r: Option<string>)
    ensures r.Some? ==> r.value != ""
    ensures vcardText.Some? ==> (r.None? <==> Trim(vcardText.value) in {"", "@"})
    ensures vcardText.Some? && '@' !in vcardText.value ==> r == if Trim(vcardText.value) == "" then None else Some(Trim(vcardText.value))
    ensures vcardText.Some? ==> r == if RemoveFirstAt(Trim(vcardText.value)) == "" then None else Some(RemoveFirstAt(Trim(vcardText.value)))
    ensures vcardText.None? ==> r == if Segments(pathname) == [] then None else Some(Segments(pathname)[0])
  {
    match vcardText
    case Some(text) =>
      var name := RemoveFirstAt(Trim(text));
      TrimKeepsCharacters(text);
      RemoveFirstAtEmpty(Trim(text));
      if name == "" then None else Some(name)
    case None =>
      var segments := Segments(pathname);
      if |segments| >= 1 then assert segments[0] in segments; Some(segments[0]) else None
  }

  /** A vcard showing "@alice" gives "alice", whatever the path is. */
  lemma VcardHandleWithoutAt(pathname: string)
    ensures GetProfileUsername(Some("@alice"), pathname) == Some("alice")
  {
    assert LeadingSpace("@alice") == 0;
    assert Trim("@alice") == "@alice";
    assert RemoveFirstAt("@alice") == "alice";
  }

  lemma RemoveFirstAtEmpty(s: string)
    ensures RemoveFirstAt(s) == "" <==> s in {"", "@"}
  {
    if s == "" {
    } else if |s| == 1 {
      assert s[1..] == "";
      assert s == "@" <==> s[0] == '@';
    } else {
      assert |RemoveFirstAt(s)| >= 1;
      assert s != "@";
    }
  }

  /** Trimming only removes characters. */
  lemma TrimKeepsCharacters(s: string)
    ensures forall c :: c in Trim(s) ==> c in s
  {
    var r := Trim(s);
    var i := LeadingSpace(s);
    forall c | c in r ensures c in s {
      var k :| 0 <= k < |r| && r[k] == c;
      assert s[i + k] == c;
    }
  }

  /** `getProfileDisplayName()`: the trimmed full name when it is non-empty,
      else the profile user name when there is one, else "User". The result
      is never empty. */
  function GetProfileDisplayName(fullNameText: Option<string>, username: Option<string>): (r: string)
    ensures r != ""
    ensures fullNameText.Some? && Trim(fullNameText.value) != "" ==> r == Trim(fullNameText.value)
    ensures (fullNameText.None? || Trim(fullNameText.value) == "") && Truthy(username) ==> r == username.value
    ensures (fullNameText.None? || Trim(fullNameText.value) == "") && !Truthy(username) ==> r == "User"
  {
    var trimmed := if fullNameText.Some? then Some(Trim(fullNameText.value)) else None;
    OrElse(OrElse(trimmed, username), Some("User")).value
  }
}
