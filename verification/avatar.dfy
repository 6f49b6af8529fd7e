/** The avatar: its size in points, the picture it shows, and the initials it falls back to.
    The resolver of stored picture paths is a parameter. */
module Avatar {
  import opened Options
  import opened Js

  /** The user the avatar is drawn for; both fields are optional. */
  datatype User = User(fullName: Option<string>, picture: Option<string>)

  /** The size: a number of points, or one of the names `sm`, `md`, `lg`, `xl`. */
  datatype Size = Points(n: int) | Named(name: string)

  /** The size when none is given. */
  const DefaultSize: Size := Named("md")

  /** The diameter in points: a number as given, the named sizes 32, 64 and 100, and 48 for
      `md` and any other name. */
  function AvatarSize(size: Size): (px: int)
    ensures size.Points? ==> px == size.n
    ensures size.Named? ==> px in {32, 48, 64, 100}
    ensures size.Named? ==>
              (px == 32 <==> size.name == "sm") && (px == 64 <==> size.name == "lg") && (px == 100 <==> size.name == "xl")
  {
    match size
    case Points(n) => n
    case Named(name) =>
      if name == "sm" then 32 else if name == "lg" then 64 else if name == "xl" then 100 else 48
  }

  /** The default size and every unknown name give the middle size. */
  lemma UnknownNamesAreMedium(name: string)
    requires name !in ["sm", "lg", "xl"]
    ensures AvatarSize(Named(name)) == AvatarSize(DefaultSize) == 48
  {
  }

  // ---------------------------------------------------------------- initials

  /** `s.split(' ')`: the pieces between single spaces, empty ones included. */
  function SplitSpaces(s: string): (words: seq<string>)
    ensures |words| >= 1
    ensures forall i :: 0 <= i < |words| ==> ' ' !in words[i]
    decreases |s|
  {
    if s == [] then [""]
    else
      var rest := SplitSpaces(s[1..]);
      if s[0] == ' ' then [""] + rest else [[s[0]] + rest[0]] + rest[1..]
  }

  /** Joining the pieces with single spaces gives back the text. */
  lemma {:induction false} SplitJoins(s: string)
    ensures JoinWith(SplitSpaces(s), " ") == s
    decreases |s|
  {
    if s != [] {
      var rest := SplitSpaces(s[1..]);
      SplitJoins(s[1..]);
      if s[0] == ' ' {
        assert ([""] + rest)[1..] == rest;
      } else {
        var words := [[s[0]] + rest[0]] + rest[1..];
        assert words[1..] == rest[1..];
        if |rest| == 1 {
          assert s == [s[0]] + s[1..];
        } else {
          assert JoinWith(rest, " ") == rest[0] + " " + JoinWith(rest[1..], " ");
          assert s == [s[0]] + s[1..];
        }
      }
    }
  }

  /** A word without spaces is not split. */
  lemma {:induction false} SplitWord(w: string)
    requires ' ' !in w
    ensures SplitSpaces(w) == [w]
    decreases |w|
  {
    if w != [] {
      assert ' ' !in w[1..] by {
        forall i | 0 <= i < |w[1..]| ensures w[1..][i] != ' ' {
          assert w[1..][i] == w[i + 1];
        }
      }
      SplitWord(w[1..]);
      assert [w[0]] + w[1..] == w;
    }
  }

  /** A word without spaces followed by a space is split off as the first piece. */
  lemma {:induction false} SplitAfterWord(w: string, t: string)
    requires ' ' !in w
    ensures SplitSpaces(w + " " + t) == [w] + SplitSpaces(t)
    decreases |w|
  {
    var s := w + " " + t;
    if w == [] {
      assert s[1..] == t;
    } else {
      assert ' ' !in w[1..] by {
        forall i | 0 <= i < |w[1..]| ensures w[1..][i] != ' ' {
          assert w[1..][i] == w[i + 1];
        }
      }
      SplitAfterWord(w[1..], t);
      assert s[1..] == w[1..] + " " + t;
      assert [w[0]] + w[1..] == w;
    }
  }

  /** Splitting undoes joining words that hold no spaces: the pieces are determined by the text. */
  lemma {:induction false} SplitInvertsJoin(words: seq<string>)
    requires |words| >= 1
    requires forall i :: 0 <= i < |words| ==> ' ' !in words[i]
    ensures SplitSpaces(JoinWith(words, " ")) == words
    decreases |words|
  {
    if |words| == 1 {
      SplitWord(words[0]);
    } else {
      SplitInvertsJoin(words[1..]);
      SplitAfterWord(words[0], JoinWith(words[1..], " "));
      assert [words[0]] + words[1..] == words;
    }
  }

  /** `.map((n) => n[0]).join('')`: the first character of every piece; an empty piece gives
      `undefined`, which joins as nothing. */
  function FirstChars(words: seq<string>): (r: string)
    ensures |r| <= |words|
    decreases |words|
  {
    if words == [] then ""
    else (if words[0] == "" then "" else [words[0][0]]) + FirstChars(words[1..])
  }

  /** The first characters of the pieces are never spaces, and there are some exactly when the
      text holds a character other than a space. */
  lemma {:induction false} FirstCharsOfSplit(s: string)
    ensures ' ' !in FirstChars(SplitSpaces(s))
    ensures FirstChars(SplitSpaces(s)) != "" <==> exists i :: 0 <= i < |s| && s[i] != ' '
    decreases |s|
  {
    if s != [] {
      var rest := SplitSpaces(s[1..]);
      FirstCharsOfSplit(s[1..]);
      var words := SplitSpaces(s);
      assert words[1..] == rest[1..] || words[1..] == rest;
      if s[0] == ' ' {
        assert words[1..] == rest;
        if exists i :: 0 <= i < |s| && s[i] != ' ' {
          var i :| 0 <= i < |s| && s[i] != ' ';
          assert s[1..][i - 1] == s[i];
        }
        if exists i :: 0 <= i < |s[1..]| && s[1..][i] != ' ' {
          var i :| 0 <= i < |s[1..]| && s[1..][i] != ' ';
          assert s[i + 1] != ' ';
        }
      } else {
        assert words[0][0] == s[0];
        assert FirstChars(words) == [s[0]] + FirstChars(words[1..]);
        FirstCharsNoSpace(words[1..]);
      }
    }
  }

  /** Pieces without spaces have first characters that are not spaces. */
  lemma {:induction false} FirstCharsNoSpace(words: seq<string>)
    requires forall i :: 0 <= i < |words| ==> ' ' !in words[i]
    ensures ' ' !in FirstChars(words)
    decreases |words|
  {
    if words != [] {
      FirstCharsNoSpace(words[1..]);
    }
  }

  /** The initials: the first characters of the space-separated pieces of the full name,
      upper-cased, at most two; none without a name. */
  function Initials(user: Option<User>): (r: string)
    ensures |r| <= 2
    ensures (user.None? || user.value.fullName.None? || user.value.fullName == Some("")) ==> r == ""
  {
    if user.None? || user.value.fullName.None? || user.value.fullName.value == "" then ""
    else
      var u := ToUpper(FirstChars(SplitSpaces(user.value.fullName.value)));
      if |u| <= 2 then u else u[..2]
  }

  /** A name has initials exactly when it holds a character other than a space; none of them is
      a space, and each is the upper case of a character of the name. */
  lemma InitialsOfName(name: string)
    ensures var r := Initials(Some(User(Some(name), None)));
      (r != "" <==> exists i :: 0 <= i < |name| && name[i] != ' ')
      && (forall i :: 0 <= i < |r| ==> r[i] != ' ' && exists j :: 0 <= j < |name| && r[i] == UpperChar(name[j]))
  {
    if name != "" {
      FirstCharsOfSplit(name);
      var f := FirstChars(SplitSpaces(name));
      forall i | 0 <= i < |f| ensures exists j :: 0 <= j < |name| && f[i] == name[j] {
        FirstCharsFromText(name, i);
      }
    }
  }

  /** Every first character of a piece is a character of the text. */
  lemma {:induction false} FirstCharsFromText(s: string, i: nat)
    requires i < |FirstChars(SplitSpaces(s))|
    ensures exists j :: 0 <= j < |s| && FirstChars(SplitSpaces(s))[i] == s[j]
    decreases |s|
  {
    var words := SplitSpaces(s);
    var rest := SplitSpaces(s[1..]);
    if s[0] == ' ' {
      assert words[1..] == rest;
      FirstCharsFromText(s[1..], i);
      var j :| 0 <= j < |s[1..]| && FirstChars(rest)[i] == s[1..][j];
      assert s[j + 1] == s[1..][j];
    } else if i == 0 {
      assert FirstChars(words)[0] == s[0];
    } else {
      assert FirstChars(words) == [s[0]] + FirstChars(words[1..]);
      assert FirstChars(words)[i] == FirstChars(words[1..])[i - 1];
      if |rest| == 1 {
        assert false;
      } else {
        assert words[1..] == rest[1..];
        assert FirstChars(rest) == (if rest[0] == "" then "" else [rest[0][0]]) + FirstChars(rest[1..]);
        var k := i - 1 + |FirstChars(rest)| - |FirstChars(rest[1..])|;
        assert FirstChars(rest)[k] == FirstChars(rest[1..])[i - 1];
        FirstCharsFromText(s[1..], k);
        var j :| 0 <= j < |s[1..]| && FirstChars(rest)[k] == s[1..][j];
        assert s[j + 1] == s[1..][j];
      }
    }
  }

  /** A first and a last name give the upper-cased first letter of each. */
  lemma TwoWordInitials(first: string, last: string)
    requires first != "" && last != "" && ' ' !in first && ' ' !in last
    ensures Initials(Some(User(Some(first + " " + last), None))) == [UpperChar(first[0]), UpperChar(last[0])]
  {
    SplitAfterWord(first, last);
    SplitWord(last);
    assert SplitSpaces(first + " " + last) == [first, last];
    assert FirstChars([first, last]) == [first[0], last[0]];
  }

  // ---------------------------------------------------------------- picture

  /** A picture on the device or inline, which is used as it is. */
  predicate LocalPicture(p: string) {
    StartsWith(p, "file://") || StartsWith(p, "content://") || StartsWith(p, "data:") || StartsWith(p, "/")
  }

  /** The picture source: a local picture as it is, any other picture through the resolver, and
      `null` without a picture. */
  function ImageSource(user: Option<User>, imageUrl: string -> Value): (src: Value)
    ensures (user.None? || user.value.picture.None? || user.value.picture == Some("")) ==> src == Null
  {
    if user.None? || user.value.picture.None? || user.value.picture.value == "" then Null
    else if LocalPicture(user.value.picture.value) then Str(user.value.picture.value)
    else imageUrl(user.value.picture.value)
  }

  /** What the avatar draws: the picture when its source is truthy, else the initials when
      there are some, else the person icon. */
  datatype Face = Picture(uri: Value) | Letters(text: string) | PersonIcon

  function FaceOf(user: Option<User>, imageUrl: string -> Value): (f: Face)
    ensures f.Picture? ==> Truthy(f.uri)
    ensures f.Letters? ==> f.text != "" && |f.text| <= 2
  {
    var src := ImageSource(user, imageUrl);
    if Truthy(src) then Picture(src)
    else if Initials(user) != "" then Letters(Initials(user))
    else PersonIcon
  }

  /** A local picture is drawn as it is, whatever the resolver does with paths. */
  lemma LocalPictureIgnoresResolver(user: User, imageUrl: string -> Value)
    requires user.picture.Some? && user.picture.value != "" && LocalPicture(user.picture.value)
    ensures FaceOf(Some(user), imageUrl) == Picture(Str(user.picture.value))
  {
  }

  /** Any other picture is drawn through the resolver when it resolves to something, and the
      avatar falls back to the initials or the icon when it does not. */
  lemma StoredPictureResolved(user: User, imageUrl: string -> Value)
    requires user.picture.Some? && user.picture.value != "" && !LocalPicture(user.picture.value)
    ensures Truthy(imageUrl(user.picture.value)) ==> FaceOf(Some(user), imageUrl) == Picture(imageUrl(user.picture.value))
    ensures !Truthy(imageUrl(user.picture.value)) ==> !FaceOf(Some(user), imageUrl).Picture?
  {
  }

  /** Without a picture the avatar shows the initials when the name holds a character other
      than a space, and the person icon otherwise. */
  lemma NoPictureFallsBack(name: Option<string>, imageUrl: string -> Value)
    ensures var f := FaceOf(Some(User(name, None)), imageUrl);
      (f.Letters? <==> name.Some? && exists i :: 0 <= i < |name.value| && name.value[i] != ' ')
      && (f.PersonIcon? <==> !f.Letters?)
  {
    if name.Some? {
      InitialsOfName(name.value);
    }
  }
}
