/** The sidebar's user entry: initials from the e-mail address, and the
    display-name and avatar fallback chains. A metadata value that is
    missing or is not a string is `None`. */
module NavUser {
  import opened Seqs
  import opened Text

  /** The separators of the local part: `.`, `_` and `-`. */
  predicate IsSep(c: char)
  {
    c == '.' || c == '_' || c == '-'
  }

  /** `s.split(/[._-]/)`: split at every separator character. Splitting at
      runs, as the source's `/[._-]+/` does, differs only by empty pieces,
      which the caller drops. */
  function SplitAtSeps(s: string): (parts: seq<string>)
    ensures |parts| >= 1
    ensures forall k, j :: 0 <= k < |parts| && 0 <= j < |parts[k]| ==> !IsSep(parts[k][j])
    decreases |s|
  {
    if |s| == 0 then [""]
    else
      var rest := SplitAtSeps(s[1..]);
      if IsSep(s[0]) then [""] + rest
      else [[s[0]] + rest[0]] + rest[1..]
  }


  /** The pieces of the local part: `.split(/[._-]+/).filter(Boolean)`. */
  function Pieces(s: string): (ps: seq<string>)
    ensures forall k :: 0 <= k < |ps| ==> |ps[k]| > 0
    ensures forall k, j :: 0 <= k < |ps| && 0 <= j < |ps[k]| ==> !IsSep(ps[k][j])
  {
    var parts := SplitAtSeps(s);
    var ps := Filter(parts, NonEmpty);
    forall p | p in ps ensures |p| > 0 && p in parts {
      FilterMembership(parts, NonEmpty, p);
    }
    ps
  }

  /** The concatenation of a list of strings. */
  function Concat(ps: seq<string>): string
  {
    if |ps| == 0 then "" else ps[0] + Concat(ps[1..])
  }

  /** The characters of `s` that are not separators, in order. */
  function Letters(s: string): (r: string)
    ensures |r| <= |s|
    ensures forall j :: 0 <= j < |r| ==> !IsSep(r[j])
  {
    if |s| == 0 then ""
    else if IsSep(s[0]) then Letters(s[1..])
    else [s[0]] + Letters(s[1..])
  }

  lemma {:induction false} ConcatSplitAtSeps(s: string)
    ensures Concat(SplitAtSeps(s)) == Letters(s)
    decreases |s|
  {
    if |s| > 0 {
      var rest := SplitAtSeps(s[1..]);
      ConcatSplitAtSeps(s[1..]);
      if !IsSep(s[0]) {
        assert Concat(rest) == rest[0] + Concat(rest[1..]);
        assert Concat(SplitAtSeps(s)) == [s[0]] + rest[0] + Concat(rest[1..]);
      }
    }
  }

  lemma {:induction false} ConcatDropsEmpty(ps: seq<string>)
    ensures Concat(Filter(ps, NonEmpty)) == Concat(ps)
    decreases |ps|
  {
    if |ps| > 0 {
      ConcatDropsEmpty(ps[1..]);
      if !NonEmpty(ps[0]) {
        assert ps[0] == "";
      }
    }
  }

  /** The pieces, read in order, spell exactly the non-separator characters
      of the local part: nothing is lost, reordered or invented. */
  lemma PiecesSpellLetters(s: string)
    ensures Concat(Pieces(s)) == Letters(s)
  {
    ConcatSplitAtSeps(s);
    ConcatDropsEmpty(SplitAtSeps(s));
  }

  /** `email.split('@')[0]`: the text before the first '@'. */
  function LocalPart(email: string): string
  {
    Split(email, '@')[0]
  }

  lemma {:induction false} LocalPartIsPrefixBeforeAt(email: string)
    ensures LocalPart(email) <= email
    ensures '@' !in LocalPart(email)
    ensures |LocalPart(email)| < |email| ==> email[|LocalPart(email)|] == '@'
    decreases |email|
  {
    if |email| > 0 && email[0] != '@' {
      LocalPartIsPrefixBeforeAt(email[1..]);
    }
  }

  /** `initialsFromEmail`. */
  function Initials(email: Option<string>): (r: string)
    ensures 1 <= |r| <= 2
    ensures email.None? || email == Some("") ==> r == "U"
  {
    if email.None? || email.value == "" then "U"
    else
      var bits := Pieces(LocalPart(email.value));
      var first := if |bits| > 0 then [bits[0][0]] else "U";
      var second :=
        if |bits| > 1 then [bits[1][0]]
        else if |bits| == 1 && |bits[0]| > 1 then [bits[0][1]]
        else "";
      Upper(first + second)
  }

  /** The initials by number of pieces: the first letters of the first two
      pieces; the first one or two letters of a single piece; 'U' when the
      local part has no letters. */
  lemma InitialsByPieces(email: string)
    requires email != ""
    ensures var bits := Pieces(LocalPart(email));
      && (|bits| >= 2 ==> Initials(Some(email)) == [UpperChar(bits[0][0]), UpperChar(bits[1][0])])
      && (|bits| == 1 && |bits[0]| >= 2 ==> Initials(Some(email)) == [UpperChar(bits[0][0]), UpperChar(bits[0][1])])
      && (|bits| == 1 && |bits[0]| == 1 ==> Initials(Some(email)) == [UpperChar(bits[0][0])])
      && (|bits| == 0 ==> Initials(Some(email)) == "U")
  {
  }

  /** Every initial is an upper-cased letter of the local part, or the 'U'
      placeholder. */
  lemma InitialsComeFromLocalPart(email: string, k: nat)
    requires email != "" && k < |Initials(Some(email))|
    ensures var bits := Pieces(LocalPart(email));
      (|bits| == 0 && Initials(Some(email)) == "U") ||
      (exists c :: c in Letters(LocalPart(email)) && Initials(Some(email))[k] == UpperChar(c))
  {
    var local := LocalPart(email);
    var bits := Pieces(local);
    PiecesSpellLetters(local);
    if |bits| > 0 {
      var r := Initials(Some(email));
      ConcatPieceMembers(bits, 0);
      if |bits| > 1 {
        ConcatPieceMembers(bits, 1);
      }
      if k == 0 {
        assert bits[0][0] in Letters(local);
      } else if |bits| > 1 {
        assert bits[1][0] in Letters(local);
      } else {
        assert bits[0][1] in Letters(local);
      }
    }
  }

  /** Every character of a listed string occurs in the concatenation. */
  lemma {:induction false} ConcatPieceMembers(ps: seq<string>, k: nat)
    requires k < |ps|
    ensures forall j :: 0 <= j < |ps[k]| ==> ps[k][j] in Concat(ps)
    decreases k
  {
    if k > 0 {
      ConcatPieceMembers(ps[1..], k - 1);
      assert ps[1..][k - 1] == ps[k];
    }
    forall j | 0 <= j < |ps[k]| ensures ps[k][j] in Concat(ps) {
      if k == 0 {
        assert ps[0][j] == (ps[0] + Concat(ps[1..]))[j];
      } else {
        assert ps[k][j] in Concat(ps[1..]);
        var i :| 0 <= i < |Concat(ps[1..])| && Concat(ps[1..])[i] == ps[k][j];
        assert Concat(ps)[|ps[0]| + i] == ps[k][j];
      }
    }
  }

  /** The user metadata the entry reads. */
  datatype Metadata = Metadata(name: Option<string>, fullName: Option<string>, avatarUrl: Option<string>, picture: Option<string>)

  /** A present, non-empty string: what `typeof v === 'string' && v` accepts. */
  predicate Truthy(o: Option<string>)
  {
    o.Some? && o.value != ""
  }

  /** `a || b || … || fallback` over string candidates. */
  function FirstTruthy(cands: seq<Option<string>>, fallback: string): (r: string)
    ensures (forall i :: 0 <= i < |cands| ==> !Truthy(cands[i])) ==> r == fallback
    ensures forall i :: 0 <= i < |cands| && Truthy(cands[i]) && (forall j :: 0 <= j < i ==> !Truthy(cands[j])) ==> r == cands[i].value
    decreases |cands|
  {
    if |cands| == 0 then fallback
    else if Truthy(cands[0]) then cands[0].value
    else
      var r := FirstTruthy(cands[1..], fallback);
      assert forall i :: 1 <= i < |cands| ==> cands[i] == cands[1..][i - 1];
      r
  }

  /** The name shown: metadata name, then full name, then the e-mail, then "User". */
  function DisplayName(md: Metadata, email: Option<string>): string
  {
    FirstTruthy([md.name, md.fullName, email], "User")
  }

  /** The avatar: its URL, then the picture, then no image. */
  function Avatar(md: Metadata): string
  {
    FirstTruthy([md.avatarUrl, md.picture], "")
  }

  /** The name shown is never empty; it is "User" only when nothing else is
      available (or a candidate is literally "User"); the avatar is empty
      exactly when neither image source is given. */
  lemma FallbackChains(md: Metadata, email: Option<string>)
    ensures DisplayName(md, email) != ""
    ensures !Truthy(md.name) && !Truthy(md.fullName) && !Truthy(email) ==> DisplayName(md, email) == "User"
    ensures Truthy(md.name) ==> DisplayName(md, email) == md.name.value
    ensures Avatar(md) == "" <==> !Truthy(md.avatarUrl) && !Truthy(md.picture)
  {
    var c := [md.name, md.fullName, email];
    if Truthy(md.name) {
      assert Truthy(c[0]);
    } else if Truthy(md.fullName) {
      assert Truthy(c[1]) && !Truthy(c[0]);
    } else if Truthy(email) {
      assert Truthy(c[2]) && !Truthy(c[0]) && !Truthy(c[1]);
    }
    var a := [md.avatarUrl, md.picture];
    if Truthy(md.avatarUrl) {
      assert Truthy(a[0]);
    } else if Truthy(md.picture) {
      assert Truthy(a[1]) && !Truthy(a[0]);
    }
  }
}
