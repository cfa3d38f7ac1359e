/** The user view that `GET /info` in routes/users.js builds from the stored
    user document, up to the wallet balances. */
module Profile {
  import opened Common

  /** The fields of the stored user that the view copies. `kind` is the
      user's `type`; `profileImg` is the stored file name, if any. */
  datatype UserDoc = UserDoc(
    id: Id, username: string, email: string, kind: Option<string>,
    status: Option<string>, profileImg: Option<string>)

  /** The view sent back; `profileImg` is always a URL. */
  datatype UserView = UserView(
    id: Id, username: string, email: string, kind: Option<string>,
    status: Option<string>, profileImg: string)

  const Unverified: string := "unverified"
  const UnverifiedUser: string := "unverified-user"
  const DefaultImagePath: string := "/images/default-user-img.png"
  const ProfilePicDir: string := "/profile-pic/"

  /** `!user.profileImg`: a missing file name or the empty string. */
  predicate NoImage(img: Option<string>) {
    img.None? || img.value == ""
  }

  /** The view of `doc` for a backend served at `backendUrl`. */
  function ViewOf(doc: UserDoc, backendUrl: string): (v: UserView)
    ensures v.id == doc.id && v.username == doc.username && v.email == doc.email && v.status == doc.status
    ensures v.kind == Some(UnverifiedUser) <==> doc.status == Some(Unverified) || doc.kind == Some(UnverifiedUser)
    ensures doc.status != Some(Unverified) ==> v.kind == doc.kind
    ensures NoImage(doc.profileImg) ==> v.profileImg == backendUrl + DefaultImagePath
    ensures !NoImage(doc.profileImg) ==> v.profileImg == backendUrl + ProfilePicDir + doc.profileImg.value
  {
    var kind := if doc.status == Some(Unverified) then Some(UnverifiedUser) else doc.kind;
    var img := if NoImage(doc.profileImg) then backendUrl + DefaultImagePath
               else backendUrl + ProfilePicDir + doc.profileImg.value;
    UserView(doc.id, doc.username, doc.email, kind, doc.status, img)
  }

  /** The stored file name back from a profile picture URL, when the URL
      points into the profile picture directory. */
  function FileOf(url: string, backendUrl: string): (r: Option<string>)
    ensures r.Some? ==> url == backendUrl + ProfilePicDir + r.value
  {
    var prefix := backendUrl + ProfilePicDir;
    if |prefix| <= |url| && url[..|prefix|] == prefix then
      assert url == prefix + url[|prefix|..];
      Some(url[|prefix|..])
    else None
  }

  /** A stored picture's URL names that picture: the file name is recovered
      from the view, so two users with different pictures get different URLs. */
  lemma {:induction false} PictureRoundTrip(doc: UserDoc, backendUrl: string)
    requires !NoImage(doc.profileImg)
    ensures FileOf(ViewOf(doc, backendUrl).profileImg, backendUrl) == doc.profileImg
  {
    var url := ViewOf(doc, backendUrl).profileImg;
    var prefix := backendUrl + ProfilePicDir;
    assert url == prefix + doc.profileImg.value;
    assert url[..|prefix|] == prefix;
    assert url[|prefix|..] == doc.profileImg.value;
  }

  /** The default image never reads as a stored picture, so the view tells
      users without a picture apart from those with one. */
  lemma DefaultIsNoPicture(doc: UserDoc, backendUrl: string)
    requires NoImage(doc.profileImg)
    ensures FileOf(ViewOf(doc, backendUrl).profileImg, backendUrl) == None
  {
    var url := ViewOf(doc, backendUrl).profileImg;
    var prefix := backendUrl + ProfilePicDir;
    var at := |backendUrl| + 1;
    assert url[at] == 'i' && prefix[at] == 'p';
    if |prefix| <= |url| {
      assert url[..|prefix|][at] != prefix[at];
    }
  }

  /** Whether the view shows a stored picture depends on nothing but whether
      the user has one. */
  lemma {:induction false} ViewShowsPictureExactlyWhenStored(doc: UserDoc, backendUrl: string)
    ensures FileOf(ViewOf(doc, backendUrl).profileImg, backendUrl).Some? <==> !NoImage(doc.profileImg)
  {
    if NoImage(doc.profileImg) {
      DefaultIsNoPicture(doc, backendUrl);
    } else {
      PictureRoundTrip(doc, backendUrl);
    }
  }
}
