/** Splitting and joining strings: finding a digest in an artifact URL, and canonical metric paths. */
module Paths {
  import opened Prelude
  import opened Schema
  import opened Handlers

  // ---- splitting at delimiters

  /** The segments between delimiters, empty ones included; always at least one. */
  function Split(s: string, delims: set<char>): (segments: seq<string>)
    ensures segments != []
    decreases |s|
  {
    if s == "" then [""]
    else
      var rest := Split(s[1..], delims);
      if s[0] in delims then [""] + rest else [[s[0]] + rest[0]] + rest[1..]
  }

  predicate Free(s: string, delims: set<char>) {
    forall i :: 0 <= i < |s| ==> s[i] !in delims
  }

  lemma {:induction false} SplitFree(s: string, delims: set<char>)
    requires Free(s, delims)
    ensures Split(s, delims) == [s]
    decreases |s|
  {
    if s != "" {
      SplitFree(s[1..], delims);
      assert s == [s[0]] + s[1..];
    }
  }

  lemma {:induction false} SplitSegmentsFree(s: string, delims: set<char>)
    ensures forall i :: 0 <= i < |Split(s, delims)| ==> Free(Split(s, delims)[i], delims)
    decreases |s|
  {
    if s != "" { SplitSegmentsFree(s[1..], delims); }
  }

  /** A delimiter separates the segments before it from those after it. */
  lemma {:induction false} SplitAt(a: string, c: char, b: string, delims: set<char>)
    requires c in delims
    ensures Split(a + [c] + b, delims) == Split(a, delims) + Split(b, delims)
    decreases |a|
  {
    var s := a + [c] + b;
    if a == "" {
      assert s[1..] == b;
    } else {
      assert s[1..] == a[1..] + [c] + b;
      SplitAt(a[1..], c, b, delims);
    }
  }

  // ---- the digest in an artifact URL

  const URL_DELIMS: set<char> := {'/', '?', '&'}

  function LowerChar(c: char): char {
    if 'A' <= c <= 'Z' then ((c as int) + 32) as char else c
  }

  function Lower(s: string): (r: string)
    ensures |r| == |s|
  {
    seq(|s|, i requires 0 <= i < |s| => LowerChar(s[i]))
  }

  function FirstDigest(segments: seq<string>): Option<string> {
    if segments == [] then None
    else if IsHex(segments[0], 64) then Some(Lower(segments[0]))
    else FirstDigest(segments[1..])
  }

  function ExtractDigest(url: string): Option<string> {
    FirstDigest(Split(url, URL_DELIMS))
  }

  /** SELECT digest FROM artifacts WHERE digest=$1 AND status='stored' */
  function ResolveDigest(rows: Rows, url: string): Option<string> {
    var d := ExtractDigest(url);
    if d.Some? && d.value in rows && rows[d.value].status == Stored then d else None
  }

  lemma {:induction false} FirstDigestAppend(x: seq<string>, y: seq<string>)
    ensures FirstDigest(x + y) == if FirstDigest(x).Some? then FirstDigest(x) else FirstDigest(y)
    decreases |x|
  {
    if x == [] {
      assert x + y == y;
    } else {
      assert (x + y)[1..] == x[1..] + y;
      FirstDigestAppend(x[1..], y);
    }
  }

  lemma {:induction false} LowerTwice(s: string)
    ensures Lower(Lower(s)) == Lower(s)
  {
    forall i | 0 <= i < |s| ensures Lower(Lower(s))[i] == Lower(s)[i] {
      var c := s[i];
      if 'A' <= c <= 'Z' { assert 97 <= (LowerChar(c) as int) <= 122; }
    }
  }

  lemma HexFree(d: string, n: nat)
    requires IsHex(d, n)
    ensures Free(d, URL_DELIMS)
  {
  }

  /** The three delimiters, and no other character, separate the segments of a URL. */
  lemma DigestBetween(front: string, b: char, d: string, e: char, rest: string)
    requires IsHex(d, 64) && b in "/?&" && e in "/?&" && ExtractDigest(front).None?
    ensures ExtractDigest(front + [b] + d + [e] + rest) == Some(Lower(d))
    ensures ExtractDigest(front + [b] + d) == Some(Lower(d))
  {
    var tail := d + [e] + rest;
    assert front + [b] + tail == front + [b] + d + [e] + rest;
    SplitAt(front, b, tail, URL_DELIMS);
    SplitAt(d, e, rest, URL_DELIMS);
    SplitAt(front, b, d, URL_DELIMS);
    HexFree(d, 64);
    SplitFree(d, URL_DELIMS);
    FirstDigestAppend(Split(front, URL_DELIMS), Split(tail, URL_DELIMS));
    FirstDigestAppend(Split(front, URL_DELIMS), Split(d, URL_DELIMS));
  }

  lemma NoDigestWithin(d: string, c: char)
    requires IsHex(d, 64) && c !in "/?&"
    ensures ExtractDigest(d + [c]).None? && ExtractDigest([c] + d).None?
  {
    HexFree(d, 64);
    assert "/?&"[0] == '/' && "/?&"[1] == '?' && "/?&"[2] == '&';
    assert c !in URL_DELIMS;
    SplitFree(d + [c], URL_DELIMS);
    SplitFree([c] + d, URL_DELIMS);
    LoneSegment(d + [c]);
    LoneSegment([c] + d);
  }

  lemma LoneSegment(s: string)
    requires |s| != 64
    ensures FirstDigest([s]).None?
  {
    assert !IsHex(s, 64) && [s][1..] == [];
  }

  /** Upper-case hexadecimal digits become lower-case ones, and everything else stays. */
  lemma LowerHex(s: string, i: nat)
    requires i < |s|
    ensures forall k :: 0 <= k < 6 && s[i] == "ABCDEF"[k] ==> Lower(s)[i] == "abcdef"[k]
    ensures s[i] in "0123456789abcdef" ==> Lower(s)[i] == s[i]
  {
  }

  // ---- storage keys

  const PREFIX: string := "artifacts/"
  const SUFFIX: string := "/app.tar.gz"

  lemma KeyLayout(app: string, d: string)
    requires |d| == 64
    ensures var key := StorageKey(app, d);
            && |key| == |app| + 86
            && key[10..|key| - 76] == app
            && key[|key| - 75..|key| - 11] == d
  {
    var key := StorageKey(app, d);
    assert key == PREFIX + app + "/" + d + SUFFIX;
  }

  /** Storage keys never coincide, whatever the application names contain: neither two digests nor two
      applications share one. */
  lemma KeysInjective(app1: string, d1: string, app2: string, d2: string)
    requires |d1| == 64 && |d2| == 64 && StorageKey(app1, d1) == StorageKey(app2, d2)
    ensures app1 == app2 && d1 == d2
  {
    KeyLayout(app1, d1);
    KeyLayout(app2, d2);
  }

  /** The segments of a storage key are those of the application name with one in front and two behind. */
  lemma SplitKey(app: string, d: string)
    requires IsHex(d, 64)
    ensures Split(StorageKey(app, d), URL_DELIMS) == ["artifacts"] + (Split(app, URL_DELIMS) + [d, "app.tar.gz"])
  {
    hide Split;
    var tail := d + SUFFIX;
    var body := app + ['/'] + tail;
    assert StorageKey(app, d) == "artifacts" + ['/'] + body;
    SplitFree("artifacts", URL_DELIMS);
    SplitAt("artifacts", '/', body, URL_DELIMS);
    SplitAt(app, '/', tail, URL_DELIMS);
    assert tail == d + ['/'] + "app.tar.gz";
    HexFree(d, 64);
    SplitFree(d, URL_DELIMS);
    SplitFree("app.tar.gz", URL_DELIMS);
    SplitAt(d, '/', "app.tar.gz", URL_DELIMS);
  }

  /** What a storage key gives back: the first digest-like segment of the application name if it has
      one, and otherwise the digest in lower case. */
  lemma ExtractFromKey(app: string, d: string)
    requires IsHex(d, 64)
    ensures ExtractDigest(StorageKey(app, d)) ==
            if ExtractDigest(app).Some? then ExtractDigest(app) else Some(Lower(d))
  {
    hide Split, StorageKey;
    SplitKey(app, d);
    var segments := Split(app, URL_DELIMS);
    FirstDigestAppend(["artifacts"], segments + [d, "app.tar.gz"]);
    FirstDigestAppend(segments, [d, "app.tar.gz"]);
  }

  /** The key of a stored artifact resolves to its digest exactly when the first digest-like segment of
      the application name, if any, is that digest again, and the digest is in lower case. */
  lemma KeyResolves(rows: Rows, app: string, d: string)
    requires d in rows && rows[d].status == Stored && IsHex(d, 64)
    ensures ResolveDigest(rows, StorageKey(app, d)) == Some(d) <==>
            (if ExtractDigest(app).Some? then ExtractDigest(app).value == d else Lower(d) == d)
  {
    ExtractFromKey(app, d);
  }

  /** The digest of an upper-case row is never found through any URL. */
  lemma UpperCaseNeverResolves(rows: Rows, url: string, d: string)
    requires Lower(d) != d
    ensures ResolveDigest(rows, url) != Some(d)
  {
    ExtractedIsLower(Split(url, URL_DELIMS));
  }

  lemma {:induction false} ExtractedIsLower(segments: seq<string>)
    ensures FirstDigest(segments).Some? ==> Lower(FirstDigest(segments).value) == FirstDigest(segments).value
    decreases |segments|
  {
    if segments != [] {
      LowerTwice(segments[0]);
      ExtractedIsLower(segments[1..]);
    }
  }

  // ---- canonical metric paths

  const SLASH: set<char> := {'/'}

  /** Length in UTF-8 bytes. */
  function Utf8Length(s: string): nat {
    if s == "" then 0
    else
      (if s[0] < '\U{80}' then 1 else if s[0] < '\U{800}' then 2 else if s[0] < '\U{10000}' then 3 else 4)
      + Utf8Length(s[1..])
  }

  function Dashes(s: string): nat {
    if s == "" then 0 else (if s[0] == '-' then 1 else 0) + Dashes(s[1..])
  }

  predicate UuidLike(s: string) {
    Utf8Length(s) == 36 && Dashes(s) == 4
  }

  predicate AllDigits(s: string) {
    forall i :: 0 <= i < |s| ==> '0' <= s[i] <= '9'
  }

  lemma DecimalDigits(s: string)
    ensures AllDigits(s) <==> forall c :: c in s ==> c in "0123456789"
  {
    forall c ensures '0' <= c <= '9' <==> c in "0123456789" {
      if '0' <= c <= '9' { assert "0123456789"[c as int - '0' as int] == c; }
    }
    if AllDigits(s) {
      forall c | c in s ensures '0' <= c <= '9' {
        var i :| 0 <= i < |s| && s[i] == c;
      }
    } else {
      var i :| 0 <= i < |s| && !('0' <= s[i] <= '9');
      assert s[i] in s;
    }
  }

  function Canonical(segment: string): string {
    if AllDigits(segment) || UuidLike(segment) then ":id" else segment
  }

  function NonEmpty(segments: seq<string>): seq<string> {
    if segments == [] then []
    else (if segments[0] == "" then [] else [Canonical(segments[0])]) + NonEmpty(segments[1..])
  }

  function NameApp(parts: seq<string>): seq<string> {
    if |parts| >= 2 && parts[0] == "apps" then parts[1 := ":app_name"] else parts
  }

  /** Characters take one to four bytes. */
  lemma Utf8Lengths()
    ensures Utf8Length("a") == 1 && Utf8Length("\U{7F}") == 1 && Utf8Length("\U{80}") == 2 && Utf8Length("\U{7FF}") == 2
    ensures Utf8Length("\U{800}") == 3 && Utf8Length("\U{FFFF}") == 3 && Utf8Length("\U{10000}") == 4
  {
    assert "a"[1..] == "";
  }

  /** An ASCII segment looks like a UUID if it has 36 characters and 4 of them are dashes. */
  lemma {:induction false} AsciiUuid(s: string)
    requires forall i :: 0 <= i < |s| ==> s[i] < '\U{80}'
    ensures Utf8Length(s) == |s| && Dashes(s) == |DashesAt(s)|
    ensures UuidLike(s) <==> |s| == 36 && |DashesAt(s)| == 4
    decreases |s|
  {
    if s != "" {
      AsciiUuid(s[1..]);
      DashesAfter(s);
    }
  }

  function DashesAt(s: string): set<nat> {
    set i: nat | i < |s| && s[i] == '-'
  }

  lemma DashesAfter(s: string)
    requires s != ""
    ensures |DashesAt(s)| == |DashesAt(s[1..])| + (if s[0] == '-' then 1 else 0)
  {
    var later := set i: nat | 0 < i < |s| && s[i] == '-';
    SameCount(DashesAt(s[1..]), later);
    assert DashesAt(s) == if s[0] == '-' then later + {0} else later;
  }

  /** The second set is the first one, moved up by one. */
  lemma {:induction false} SameCount(x: set<nat>, y: set<nat>)
    requires forall i :: i in x ==> i + 1 in y
    requires forall i :: i in y ==> i > 0 && i - 1 in x
    ensures |x| == |y|
    decreases x
  {
    if x == {} {
      assert y == {};
    } else {
      var i :| i in x;
      SameCount(x - {i}, y - {i + 1});
    }
  }

  /** The segments joined with '/', each preceded by one. */
  function Rooted(parts: seq<string>): string {
    if parts == [] then "" else "/" + parts[0] + Rooted(parts[1..])
  }

  function NormalizePath(raw: string): string {
    var parts := NameApp(NonEmpty(Split(raw, SLASH)));
    if parts == [] then raw else Rooted(parts)
  }

  /** A segment as normalization leaves it. */
  predicate Settled(part: string) {
    part != "" && Free(part, SLASH) && !AllDigits(part) && !UuidLike(part)
  }

  lemma IdSettled()
    ensures Settled(":id") && Settled(":app_name")
  {
    assert !('0' <= ":id"[0] <= '9') && !('0' <= ":app_name"[0] <= '9');
    assert Utf8Length(":id") == 3 by { assert ":id"[1..] == "id" && "id"[1..] == "d" && "d"[1..] == ""; }
    var s := ":app_name";
    assert Dashes(s) == 0 by { NoDashes(s); }
  }

  lemma {:induction false} NoDashes(s: string)
    requires forall i :: 0 <= i < |s| ==> s[i] != '-'
    ensures Dashes(s) == 0
    decreases |s|
  {
    if s != "" { NoDashes(s[1..]); }
  }

  lemma {:induction false} PartsSettled(segments: seq<string>)
    requires forall i :: 0 <= i < |segments| ==> Free(segments[i], SLASH)
    ensures forall i :: 0 <= i < |NonEmpty(segments)| ==> Settled(NonEmpty(segments)[i])
    decreases |segments|
  {
    if segments != [] {
      IdSettled();
      PartsSettled(segments[1..]);
    }
  }

  /** Splitting a joined path gives back its segments, after the empty one in front. */
  lemma {:induction false} SplitRooted(parts: seq<string>)
    requires forall i :: 0 <= i < |parts| ==> Free(parts[i], SLASH)
    ensures Split(Rooted(parts), SLASH) == [""] + parts
    decreases |parts|
  {
    SplitFree("", SLASH);
    hide Split, Free;
    if parts != [] {
      var rest := Rooted(parts[1..]);
      SplitRooted(parts[1..]);
      assert parts[1..] == [] || rest[0] == '/';
      assert Rooted(parts) == "" + ['/'] + (parts[0] + rest);
      SplitAt("", '/', parts[0] + rest, SLASH);
      SplitFree(parts[0], SLASH);
      if parts[1..] == [] {
        assert parts[0] + rest == parts[0];
      } else {
        SplitAfter(parts[0], rest);
      }
    }
  }

  /** What starts with a slash continues the segments of what stands before it. */
  lemma SplitAfter(a: string, rest: string)
    requires rest != "" && rest[0] == '/' && Free(a, SLASH)
    ensures Split(a + rest, SLASH) == [a] + Split(rest, SLASH)[1..]
  {
    assert rest == "" + ['/'] + rest[1..];
    SplitAt("", '/', rest[1..], SLASH);
    assert a + rest == a + ['/'] + rest[1..];
    SplitAt(a, '/', rest[1..], SLASH);
    SplitFree(a, SLASH);
    assert Split(rest, SLASH)[1..] == Split(rest[1..], SLASH);
  }

  lemma {:induction false} SettledUnchanged(parts: seq<string>)
    requires forall i :: 0 <= i < |parts| ==> Settled(parts[i])
    ensures NonEmpty(parts) == parts
    decreases |parts|
  {
    if parts != [] { SettledUnchanged(parts[1..]); }
  }

  lemma SplitAgain(parts: seq<string>)
    requires forall i :: 0 <= i < |parts| ==> Settled(parts[i])
    ensures Split(Rooted(parts), SLASH) == [""] + parts
    ensures NonEmpty([""] + parts) == parts
  {
    SplitRooted(parts);
    SettledUnchanged(parts);
    assert ([""] + parts)[1..] == parts;
  }

  lemma NameSettled(parts: seq<string>)
    requires forall i :: 0 <= i < |parts| ==> Settled(parts[i])
    ensures forall i :: 0 <= i < |NameApp(parts)| ==> Settled(NameApp(parts)[i])
    ensures NameApp(NameApp(parts)) == NameApp(parts)
  {
    IdSettled();
    hide Settled;
  }

  /** No segment of a normalized path is a number or looks like a UUID, and normalizing again changes
      nothing, for every string. */
  lemma NormalizeIdempotent(raw: string)
    ensures NormalizePath(NormalizePath(raw)) == NormalizePath(raw)
    ensures var parts := NameApp(NonEmpty(Split(raw, SLASH)));
            parts != [] ==>
              && Split(NormalizePath(raw), SLASH) == [""] + parts
              && forall i :: 0 <= i < |parts| ==> Settled(parts[i])
  {
    hide Split, Settled, NameApp;
    SplitSegmentsFree(raw, SLASH);
    PartsSettled(Split(raw, SLASH));
    NameSettled(NonEmpty(Split(raw, SLASH)));
    var parts := NameApp(NonEmpty(Split(raw, SLASH)));
    if parts != [] { SplitAgain(parts); }
  }

  /** The segments of a path that are not empty. */
  function Segments(segments: seq<string>): seq<string> {
    if segments == [] then []
    else (if segments[0] == "" then [] else [segments[0]]) + Segments(segments[1..])
  }

  lemma {:induction false} CanonicalEach(segments: seq<string>)
    ensures |NonEmpty(segments)| == |Segments(segments)|
    ensures forall i :: 0 <= i < |Segments(segments)| ==> NonEmpty(segments)[i] == Canonical(Segments(segments)[i])
    decreases |segments|
  {
    hide Canonical;
    if segments != [] { CanonicalEach(segments[1..]); }
  }

  lemma AppsIsCanonical(segment: string)
    ensures Canonical(segment) == "apps" <==> segment == "apps"
  {
    assert "apps"[1..] == "pps" && "pps"[1..] == "ps" && "ps"[1..] == "s" && "s"[1..] == "";
    assert Utf8Length("apps") == 4;
    assert !('0' <= "apps"[0] <= '9') && ":id"[0] != "apps"[0];
  }

  /** What normalization does to each segment: numbers and UUIDs become ":id", the one after a leading
      "apps" becomes ":app_name", every other one stays, and only empty ones go. */
  lemma NormalizeSegments(raw: string)
    ensures var segments := Segments(Split(raw, SLASH));
            if segments == [] then NormalizePath(raw) == raw
            else
              var result := Split(NormalizePath(raw), SLASH);
              |result| == |segments| + 1 && result[0] == "" &&
              forall i :: 0 <= i < |segments| ==>
                result[i + 1] == (if i == 1 && segments[0] == "apps" then ":app_name"
                                  else if AllDigits(segments[i]) || UuidLike(segments[i]) then ":id"
                                  else segments[i])
  {
    NormalizeIdempotent(raw);
    CanonicalEach(Split(raw, SLASH));
    var segments := Segments(Split(raw, SLASH));
    if segments != [] { AppsIsCanonical(segments[0]); }
    hide Split, AllDigits, UuidLike, NonEmpty, Segments, Settled;
  }
}
