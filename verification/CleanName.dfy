/** lib9/cleanname.c: rewriting a path name in place. */
module CleanName {

  type Elem = seq<char>

  // ----- the lexical meaning of a path

  /** The position of the first slash at or after the start of `s`, or the end of `s`. */
  function SlashAt(s: seq<char>): (n: nat)
    ensures n <= |s| && (n < |s| ==> s[n] == '/') && forall i :: 0 <= i < n ==> s[i] != '/'
  {
    if s == [] || s[0] == '/' then 0 else 1 + SlashAt(s[1..])
  }

  /** The parts between slashes, empty ones included. */
  function Split(s: seq<char>): (r: seq<Elem>)
    ensures r != []
    decreases |s|
  {
    var n := SlashAt(s);
    if n == |s| then [s] else [s[..n]] + Split(s[n + 1..])
  }

  /** Where a path leads: from the root or not, up how many levels, and then down which names.  `erased` records that a
      leading part of a relative path has vanished, so that a name in front may not have been in front. */
  datatype Place = Place(rooted: bool, ups: nat, names: seq<Elem>, erased: bool)

  function Enter(at: Place, e: Elem): Place {
    if e == "" || e == "." then at
    else if e == ".." then Back(at)
    else at.(names := at.names + [e])
  }

  function Back(at: Place): Place {
    var up :=
      if at.names != [] then at.(names := at.names[..|at.names| - 1])
      else if at.rooted then at
      else at.(ups := at.ups + 1);
    if !up.rooted && up.ups == 0 && up.names == [] then up.(erased := true) else up
  }

  function Follow(at: Place, es: seq<Elem>): Place
    decreases |es|
  {
    if es == [] then at else Follow(Enter(at, es[0]), es[1..])
  }

  predicate Rooted(s: seq<char>) {
    s != [] && s[0] == '/'
  }

  function Begin(s: seq<char>): Place {
    Place(Rooted(s), 0, [], !Rooted(s) && Split(s)[0] == ".")
  }

  /** The place a path names. */
  function Meaning(s: seq<char>): Place {
    Follow(Begin(s), Split(s))
  }

  // ----- writing a place as a path

  function Join(es: seq<Elem>): seq<char> {
    if es == [] then []
    else if |es| == 1 then es[0]
    else Join(es[..|es| - 1]) + "/" + es[|es| - 1]
  }

  function Ups(n: nat): seq<Elem> {
    seq(n, _ => "..")
  }

  /** The elements written for a place. */
  function Elems(at: Place): seq<Elem> {
    Ups(at.ups) + at.names
  }

  function Out(at: Place): seq<char> {
    (if at.rooted then "/" else "") + Join(Elems(at))
  }

  /** The clean name of a place: a relative path to nowhere is ".", and a name that starts with # only because what was
      in front of it vanished is kept from looking like a device. */
  function Written(at: Place): seq<char> {
    var s := if Out(at) == [] then "." else Out(at);
    if at.erased && s[0] == '#' then "./" + s else s
  }

  function Clean(s: seq<char>): seq<char> {
    Written(Meaning(s))
  }

  /** A real path element. */
  predicate IsName(e: Elem) {
    e != [] && e != "." && e != ".." && '/' !in e
  }

  /** Normal form: only real names, and upward steps only in a relative path (where they are all in front). */
  predicate Normal(at: Place) {
    (forall i :: 0 <= i < |at.names| ==> IsName(at.names[i])) && (at.rooted ==> at.ups == 0)
  }

  lemma {:induction false} SplitParts(s: seq<char>, i: nat)
    requires i < |Split(s)|
    ensures '/' !in Split(s)[i]
    decreases |s|
  {
    var n := SlashAt(s);
    if i > 0 { SplitParts(s[n + 1..], i - 1); }
  }

  lemma {:induction false} FollowNormal(at: Place, es: seq<Elem>)
    requires Normal(at) && forall i :: 0 <= i < |es| ==> '/' !in es[i]
    ensures Normal(Follow(at, es)) && Follow(at, es).rooted == at.rooted
    decreases |es|
  {
    if es != [] { FollowNormal(Enter(at, es[0]), es[1..]); }
  }

  /** Every path means a place in normal form. */
  lemma MeaningNormal(s: seq<char>)
    ensures Normal(Meaning(s)) && Meaning(s).rooted == Rooted(s)
  {
    forall i | 0 <= i < |Split(s)| ensures '/' !in Split(s)[i] { SplitParts(s, i); }
    FollowNormal(Begin(s), Split(s));
  }

  // ----- cleaning keeps the meaning

  lemma SplitAt(s: seq<char>, n: nat)
    requires n < |s| && s[n] == '/' && '/' !in s[..n]
    ensures Split(s) == [s[..n]] + Split(s[n + 1..])
  {
    forall i | 0 <= i < n ensures s[i] != '/' { assert s[i] in s[..n]; }
  }

  lemma SplitWhole(e: Elem)
    requires '/' !in e
    ensures Split(e) == [e]
  {
  }

  lemma {:induction false} SplitSnoc(x: seq<char>, e: Elem)
    requires '/' !in e
    ensures Split(x + "/" + e) == Split(x) + [e]
    decreases |x|
  {
    hide Split;
    var y, n := x + "/" + e, SlashAt(x);
    assert y[..n] == x[..n];
    SplitAt(y, n);
    if n == |x| {
      assert x[..n] == x && y[n + 1..] == e;
      SplitWhole(e);
      SplitWhole(x);
    } else {
      assert y[n + 1..] == x[n + 1..] + "/" + e;
      SplitSnoc(x[n + 1..], e);
      SplitAt(x, n);
    }
  }

  predicate SlashFree(es: seq<Elem>) {
    forall i :: 0 <= i < |es| ==> '/' !in es[i]
  }

  lemma {:induction false} SplitJoin(es: seq<Elem>)
    requires es != [] && SlashFree(es)
    ensures Split(Join(es)) == es
    decreases |es|
  {
    var init, last := es[..|es| - 1], es[|es| - 1];
    if |es| == 1 {
      SplitWhole(es[0]);
    } else {
      SplitJoin(init);
      SplitSnoc(Join(init), last);
      assert init + [last] == es;
    }
  }

  lemma {:induction false} FollowSnoc(at: Place, es: seq<Elem>, e: Elem)
    ensures Follow(at, es + [e]) == Enter(Follow(at, es), e)
    decreases |es|
  {
    if es == [] {
      assert es + [e] == [e];
    } else {
      assert (es + [e])[1..] == es[1..] + [e];
      FollowSnoc(Enter(at, es[0]), es[1..], e);
    }
  }

  /** Following the elements written for a place leads to that place. */
  lemma {:induction false} Retrace(at: Place, x: bool)
    requires Normal(at)
    ensures Follow(Place(at.rooted, 0, [], x), Elems(at)) == at.(erased := x)
    decreases |at.names|, at.ups
  {
    if at.names != [] {
      var e, shorter := at.names[|at.names| - 1], at.(names := at.names[..|at.names| - 1]);
      Retrace(shorter, x);
      assert Elems(at) == Elems(shorter) + [e];
      FollowSnoc(Place(at.rooted, 0, [], x), Elems(shorter), e);
    } else if at.ups > 0 {
      var lower := at.(ups := at.ups - 1);
      Retrace(lower, x);
      assert Elems(at) == Elems(lower) + [".."];
      FollowSnoc(Place(at.rooted, 0, [], x), Elems(lower), "..");
    }
  }

  lemma ElemsSlashFree(at: Place)
    requires Normal(at)
    ensures SlashFree(Elems(at)) && forall i :: 0 <= i < |Elems(at)| ==> Elems(at)[i] != [] && Elems(at)[i] != "."
  {
  }

  lemma {:induction false} JoinFirst(es: seq<Elem>)
    requires es != [] && es[0] != []
    ensures Join(es) != [] && Join(es)[0] == es[0][0]
    decreases |es|
  {
    if |es| > 1 { JoinFirst(es[..|es| - 1]); }
  }

  /** The place named by the written form of a place, when nothing is put in front of it. */
  lemma OutMeans(at: Place)
    requires Normal(at) && Out(at) != []
    ensures Rooted(Out(at)) == at.rooted && Meaning(Out(at)) == at.(erased := false)
  {
    var es, out := Elems(at), Out(at);
    ElemsSlashFree(at);
    Retrace(at, false);
    if at.rooted {
      assert out[1..] == Join(es);
      assert SlashAt(out) == 0 && Split(out) == [[]] + Split(Join(es));
      assert Follow(Begin(out), Split(out)) == Follow(Begin(out), Split(Join(es)));
      if es == [] {
        assert Split(Join(es)) == [[]] && Follow(Begin(out), [[]]) == Begin(out);
      } else {
        SplitJoin(es);
      }
    } else {
      assert out == Join(es);
      JoinFirst(es);
      SplitJoin(es);
    }
  }

  predicate SamePlace(a: Place, b: Place) {
    a.rooted == b.rooted && a.ups == b.ups && a.names == b.names
  }

  /** The clean name of a place leads to that place, and says again what had vanished in front of it if that matters. */
  lemma WrittenMeans(at: Place)
    requires Normal(at)
    ensures SamePlace(Meaning(Written(at)), at)
    ensures Out(at) != [] && Out(at)[0] == '#' ==> Meaning(Written(at)).erased == at.erased
  {
    var out := Out(at);
    if out == [] {
      assert Elems(at) == [] by {
        if Elems(at) != [] { ElemsSlashFree(at); JoinFirst(Elems(at)); }
      }
      SplitWhole(".");
      assert Follow(Begin("."), ["."]) == Begin(".");
    } else {
      OutMeans(at);
      if at.erased && out[0] == '#' {
        var w := "./" + out;
        assert w[..1] == "." && w[2..] == out;
        SplitAt(w, 1);
        Retrace(at, true);
        var es := Elems(at);
        ElemsSlashFree(at);
        assert out == Join(es);
        SplitJoin(es);
        assert Split(w)[1..] == es;
      }
    }
  }

  /** Cleaning a path does not change where it leads. */
  lemma CleanKeepsMeaning(s: seq<char>)
    ensures SamePlace(Meaning(Clean(s)), Meaning(s))
  {
    MeaningNormal(s);
    WrittenMeans(Meaning(s));
  }

  /** Cleaning a clean path changes nothing. */
  lemma CleanIsIdempotent(s: seq<char>)
    ensures Clean(Clean(s)) == Clean(s)
  {
    var at := Meaning(s);
    MeaningNormal(s);
    WrittenMeans(at);
    assert Elems(Meaning(Clean(s))) == Elems(at);
  }

  // ----- what a clean path looks like

  /** The first `u` elements are dot-dots, and the others real names; below the root there are no dot-dots. */
  predicate TidyFrom(es: seq<Elem>, u: nat, rooted: bool) {
    && u <= |es| && (rooted ==> u == 0)
    && (forall i :: 0 <= i < u ==> es[i] == "..") && (forall i :: u <= i < |es| ==> IsName(es[i]))
  }

  ghost predicate Tidy(es: seq<Elem>, rooted: bool) {
    es != [] && exists u :: TidyFrom(es, u, rooted)
  }

  /** The parts of the text between slashes, after the one in front, are tidy. */
  ghost predicate TidyText(t: seq<char>) {
    if Rooted(t) then Tidy(Split(t[1..]), true) else Tidy(Split(t), false)
  }

  /** A tidy text behind "./", protected from being taken for a device. */
  ghost predicate Protected(t: seq<char>) {
    |t| > 2 && t[..2] == "./" && t[2] == '#' && TidyText(t[2..])
  }

  lemma ElemsTidy(at: Place)
    requires Normal(at)
    ensures TidyFrom(Elems(at), at.ups, at.rooted)
  {
  }

  lemma OutTidy(at: Place)
    requires Normal(at) && Elems(at) != []
    ensures TidyText(Out(at)) && Rooted(Out(at)) == at.rooted
    ensures !at.rooted ==> Out(at) != [] && Elems(at)[0] != [] && Out(at)[0] == Elems(at)[0][0]
  {
    var es := Elems(at);
    ElemsSlashFree(at);
    ElemsTidy(at);
    hide Elems;
    hide TidyFrom;
    hide Normal;
    hide Split;
    JoinFirst(es);
    SplitJoin(es);
    hide Join;
    if at.rooted {
      assert Out(at)[1..] == Join(es);
    } else {
      assert Out(at) == Join(es);
    }
  }

  /** The text of every clean path: nowhere, the root, a tidy path, or a protected one. */
  lemma CleanText(s: seq<char>)
    ensures Clean(s) == "." || Clean(s) == "/" || TidyText(Clean(s)) || Protected(Clean(s))
    ensures Clean(s)[0] == '/' <==> Rooted(s)
  {
    hide Meaning;
    var at := Meaning(s);
    MeaningNormal(s);
    if Elems(at) != [] {
      OutTidy(at);
      hide TidyText;
      hide Out;
      var w := Written(at);
      if at.erased && Out(at)[0] == '#' {
        assert w == "./" + Out(at) && w[2..] == Out(at);
      }
    }
  }

  predicate Nowhere(at: Place) { at.ups == 0 && at.names == [] }

  /** Where the first `k` parts of a relative path lead. */
  function Front(s: seq<char>, k: nat): Place
    requires k <= |Split(s)|
  {
    Follow(Begin(s), Split(s)[..k])
  }

  /** Some front part of the path leads back to where it starts. */
  ghost predicate Returns(s: seq<char>) {
    exists k :: 1 <= k <= |Split(s)| && Nowhere(Front(s, k))
  }

  lemma FrontStep(s: seq<char>, k: nat)
    requires k < |Split(s)|
    ensures Front(s, k + 1) == Enter(Front(s, k), Split(s)[k])
  {
    hide Split;
    hide Enter;
    assert Split(s)[..k + 1] == Split(s)[..k] + [Split(s)[k]];
    FollowSnoc(Begin(s), Split(s)[..k], Split(s)[k]);
  }

  lemma FirstPart(s: seq<char>)
    requires s != [] && !Rooted(s)
    ensures Split(s)[0] != [] && Split(s)[0][0] == s[0]
    ensures Front(s, 1) == Enter(Begin(s), Split(s)[0])
  {
    FrontStep(s, 0);
  }

  /** As long as no front part of a relative path has led back, its first part is still in front; and the front of the path
      counts as erased exactly if one has. */
  lemma {:induction false} FrontKept(s: seq<char>, k: nat)
    requires s != [] && !Rooted(s) && 1 <= k <= |Split(s)|
    ensures Normal(Front(s, k)) && !Front(s, k).rooted
    ensures var back := exists j :: 1 <= j <= k && Nowhere(Front(s, j));
      && (Front(s, k).erased <==> back)
      && (!back ==> Elems(Front(s, k)) != [] && Elems(Front(s, k))[0] == Split(s)[0])
    decreases k
  {
    hide Split;
    hide Front;
    forall i | 0 <= i < |Split(s)| ensures '/' !in Split(s)[i] { SplitParts(s, i); }
    if k == 1 {
      FirstPart(s);
    } else {
      FrontKept(s, k - 1);
      FrontStep(s, k - 1);
      StepKept(Front(s, k - 1), Split(s)[k - 1], Split(s)[0]);
    }
  }

  lemma StepKept(at: Place, e: Elem, first: Elem)
    requires Normal(at) && !at.rooted && '/' !in e && (Nowhere(at) ==> at.erased)
    ensures Normal(Enter(at, e)) && !Enter(at, e).rooted
    ensures Enter(at, e).erased <==> at.erased || Nowhere(Enter(at, e))
    ensures Elems(at) != [] && Elems(at)[0] == first && !Nowhere(Enter(at, e)) ==>
      Elems(Enter(at, e)) != [] && Elems(Enter(at, e))[0] == first
  {
  }

  lemma WholeFront(s: seq<char>)
    ensures Front(s, |Split(s)|) == Meaning(s)
  {
    assert Split(s)[..|Split(s)|] == Split(s);
  }

  /** The place begins with a name that begins with #. */
  predicate HashInFront(at: Place) {
    !at.rooted && at.ups == 0 && at.names != [] && at.names[0] != [] && at.names[0][0] == '#'
  }

  lemma OutHash(at: Place)
    requires Normal(at)
    ensures HashInFront(at) <==> Out(at) != [] && Out(at)[0] == '#'
    ensures Out(at) != [] && !at.rooted ==> Elems(at) != [] && Elems(at)[0] != [] && Out(at)[0] == Elems(at)[0][0]
    ensures Out(at) == [] ==> !at.rooted && Elems(at) == []
  {
    ElemsSlashFree(at);
    if Elems(at) != [] {
      JoinFirst(Elems(at));
    }
  }

  /** A path becomes the name of a device exactly if it is one and no front part of it leads back to where it starts. */
  lemma DeviceIff(s: seq<char>)
    requires s != []
    ensures Clean(s)[0] == '#' <==> s[0] == '#' && !Returns(s)
  {
    hide Split;
    hide Front;
    hide Meaning;
    hide Out;
    var at := Meaning(s);
    MeaningNormal(s);
    OutHash(at);
    WholeFront(s);
    hide Normal;
    hide Elems;
    if !Rooted(s) {
      FirstPart(s);
      FrontKept(s, |Split(s)|);
    } else {
      OutTop(at);
    }
  }

  lemma OutTop(at: Place)
    requires at.rooted
    ensures Out(at) != [] && Out(at)[0] == '/'
  {
  }

  /** It is protected by "./" exactly if a front part of it leads back and what is left begins with #. */
  lemma ProtectedIff(s: seq<char>)
    requires s != []
    ensures Protected(Clean(s)) <==> !Rooted(s) && Returns(s) && HashInFront(Meaning(s))
  {
    hide Split;
    hide Front;
    hide Meaning;
    hide Out;
    hide Returns;
    var at := Meaning(s);
    MeaningNormal(s);
    OutHash(at);
    WholeFront(s);
    if at.erased && HashInFront(at) {
      OutTidy(at);
      assert ("./" + Out(at))[2..] == Out(at);
    } else {
      NotProtected(at);
    }
    if !Rooted(s) {
      FrontKept(s, |Split(s)|);
      assert at.erased <==> Returns(s) by { ReturnsIs(s); }
    }
  }

  lemma ReturnsIs(s: seq<char>)
    ensures Returns(s) <==> exists k :: 1 <= k <= |Split(s)| && Nowhere(Front(s, k))
  {
    hide Front;
    hide Split;
  }

  lemma NotProtected(at: Place)
    requires Normal(at) && !(at.erased && HashInFront(at))
    ensures !Protected(Written(at))
  {
    var out := Out(at);
    OutHash(at);
    hide Out;
    if |out| > 2 && out[..2] == "./" {
      if at.rooted {
        OutTop(at);
      } else {
        NoDotFirst(at);
      }
    }
  }

  lemma NoDotFirst(at: Place)
    requires Normal(at) && !at.rooted && |Out(at)| > 2
    ensures Out(at)[..2] != "./"
  {
    var es, out := Elems(at), Out(at);
    ElemsSlashFree(at);
    OutHash(at);
    hide Elems;
    hide Normal;
    hide Split;
    assert out == Join(es);
    hide Join;
    hide Out;
    SplitJoin(es);
    SplitDot(out);
  }

  lemma SplitDot(t: seq<char>)
    requires |t| >= 2
    ensures t[..2] == "./" ==> Split(t)[0] == "."
  {
    hide Split;
    if t[..2] == "./" {
      assert t[0] == '.' && t[1] == '/';
      assert t[..1] == ".";
      SplitAt(t, 1);
    }
  }

  /** A device that is left and found again is protected although it was one: "#a/../#b" becomes "./#b". */
  lemma DeviceLost()
    ensures Clean("#a/../#b") == "./#b"
  {
    LostParts();
    hide Split;
    var es: seq<Elem> := ["#a", "..", "#b"];
    var at := Begin("#a/../#b");
    assert at == Place(false, 0, [], false);
    var gone := Place(false, 0, [], true);
    assert es[1..] == ["..", "#b"] && es[1..][1..] == ["#b"] && es[1..][1..][1..] == [];
    assert Enter(at, "#a") == Place(false, 0, ["#a"], false) && Enter(Place(false, 0, ["#a"], false), "..") == gone;
    assert Follow(gone, ["#b"]) == Follow(Enter(gone, "#b"), []) == Place(false, 0, ["#b"], true);
    assert Follow(at, es) == Place(false, 0, ["#b"], true);
    hide Follow;
    assert Ups(0) + ["#b"] == ["#b"];
    assert Out(Place(false, 0, ["#b"], true)) == "#b";
  }

  lemma LostParts()
    ensures Split("#a/../#b") == ["#a", "..", "#b"]
  {
    var s := "#a/../#b";
    hide Split;
    assert s[..2] == "#a" && s[3..] == "../#b" && "../#b"[..2] == ".." && "../#b"[3..] == "#b";
    SplitAt(s, 2);
    SplitAt("../#b", 2);
    SplitWhole("#b");
  }

  // ----- the in-place algorithm

  lemma JoinSnoc(es: seq<Elem>, e: Elem)
    ensures Join(es + [e]) == if es == [] then e else Join(es) + "/" + e
  {
    assert (es + [e])[..|es|] == es;
  }

  lemma EnterElems(at: Place, e: Elem)
    requires Normal(at) && (IsName(e) || (e == ".." && at.names == [] && !at.rooted))
    ensures Normal(Enter(at, e)) && Enter(at, e).rooted == at.rooted && Elems(Enter(at, e)) == Elems(at) + [e]
  {
    assert e == ".." ==> Ups(at.ups + 1) == Ups(at.ups) + [".."];
  }

  /** The text of an entered element is appended, after a slash unless it is the first. */
  lemma OutEnter(at: Place, e: Elem)
    requires Normal(at) && (IsName(e) || (e == ".." && at.names == [] && !at.rooted))
    ensures Normal(Enter(at, e)) && Enter(at, e).rooted == at.rooted
    ensures Out(Enter(at, e)) == Out(at) + (if Elems(at) == [] then [] else "/") + e
    ensures Elems(at) == [] <==> Out(at) == (if at.rooted then "/" else "")
  {
    EnterElems(at, e);
    JoinSnoc(Elems(at), e);
    ElemsSlashFree(at);
    if Elems(at) != [] { JoinFirst(Elems(at)); }
    hide Join;
    hide Elems;
    hide Normal;
    var r, j := if at.rooted then "/" else "", Join(Elems(at));
    if Elems(at) == [] {
      assert r + e == r + j + [] + e by { assert j == []; }
    } else {
      Joined(r, j, e);
    }
  }

  lemma Joined(r: seq<char>, j: seq<char>, e: seq<char>)
    ensures r + (j + "/" + e) == r + j + "/" + e
  {
  }

  /** Going back one name: the text up to the last slash, or up to where the names start. */
  lemma OutBack(at: Place)
    requires Normal(at) && at.names != []
    ensures var e := at.names[|at.names| - 1];
      && Normal(Back(at)) && IsName(e)
      && Out(at) == Out(Back(at)) + (if Elems(Back(at)) == [] then [] else "/") + e
      && (Elems(Back(at)) == [] || |at.names| == 1 ==> Out(Back(at)) == Out(at.(names := [])))
      && |Out(at.(names := []))| <= |Out(Back(at))|
      && (|at.names| > 1 ==> |Out(at.(names := []))| < |Out(Back(at))|)
  {
    var e, back := at.names[|at.names| - 1], at.(names := at.names[..|at.names| - 1]);
    assert Enter(back, e) == at;
    OutEnter(back, e);
    assert Elems(Back(at)) == Elems(back);
    NamesLengthen(back);
  }

  lemma {:induction false} NamesLengthen(at: Place)
    requires Normal(at)
    ensures |Out(at.(names := []))| <= |Out(at)| && (at.names != [] ==> |Out(at.(names := []))| < |Out(at)|)
    decreases |at.names|
  {
    if at.names != [] {
      var e, back := at.names[|at.names| - 1], at.(names := at.names[..|at.names| - 1]);
      assert Enter(back, e) == at;
      OutEnter(back, e);
      NamesLengthen(back);
    } else {
      assert at.(names := []) == at;
    }
  }

  /** Following a path can be interrupted after its first element. */
  lemma TakeElem(at: Place, u: seq<char>)
    ensures var n := SlashAt(u); Follow(at, Split(u)) == Follow(Enter(at, u[..n]), Split(u[n..]))
  {
    var n := SlashAt(u);
    if n == |u| {
      assert u[..n] == u && u[n..] == [];
    } else {
      assert u[n..][0] == '/' && u[n..][1..] == u[n + 1..];
    }
  }

  lemma SkipSlash(at: Place, u: seq<char>)
    requires u != [] && u[0] == '/'
    ensures Follow(at, Split(u)) == Follow(at, Split(u[1..]))
  {
    assert Split(u) == [u[..0]] + Split(u[1..]);
  }

  /** `p` is at the start of an element. */
  predicate Starts(text: seq<char>, p: nat) {
    p < |text| && text[p] != '/'
  }

  /** The path `text` is cleaned up to `p`; the result so far, of length `q`, is the text of `at`. */
  ghost predicate Progress(name: array<char>, text: seq<char>, p: nat, q: nat, dotdot: nat, erased: bool, at: Place)
    reads name
  {
    Tail(name, text, p) && q <= name.Length && name[..q] == Out(at) && Cleaned(text, p, q, dotdot, erased, at)
  }

  predicate Cleaned(text: seq<char>, p: nat, q: nat, dotdot: nat, erased: bool, at: Place) {
    && q <= p <= |text| && q == |Out(at)| && Normal(at) && at.rooted == Rooted(text)
    && Meaning(text) == Follow(at, Split(text[p..]))
    && dotdot == |Out(at.(names := []))|
    && (at.erased <==> erased || (p == 0 && Begin(text).erased))
    && Gap(text, p, q, erased)
  }

  /** The write pointer is far enough behind the read pointer: one behind it where a slash may have to be written, and
      two more once the front has been erased, so that "./" can be put back. */
  predicate Gap(text: seq<char>, p: nat, q: nat, erased: bool) {
    && (Starts(text, p) && q > (if Rooted(text) then 1 else 0) ==> q < p)
    && (erased ==> q + 2 <= p || (q == 0 && p >= 1 && !Starts(text, p)))
    && (erased && Starts(text, p) && q > 0 ==> q + 3 <= p)
  }

  lemma LastPart(s: seq<char>, back: seq<char>, slash: seq<char>, e: Elem)
    requires s == back + slash + e && '/' !in e && e != [] && (slash == [] || slash == "/")
    ensures s[..|back|] == back && |back| < |s|
    ensures forall i :: |back| < i < |s| ==> s[i] != '/'
    ensures s[|back|] == '/' <==> slash == "/"
  {
    forall i | |back| + |slash| <= i < |s| ensures s[i] != '/' { assert s[i] == e[i - |back| - |slash|]; }
  }

  /** Back up over the last name. */
  method Backtrack(name: array<char>, q0: nat, dotdot: nat, ghost at: Place) returns (q: nat)
    requires q0 <= name.Length && name[..q0] == Out(at) && Normal(at) && at.names != []
    requires dotdot == |Out(at.(names := []))|
    ensures q < q0 && name[..q] == Out(Back(at)) && Normal(Back(at))
  {
    hide Normal;
    hide Back;
    hide Elems;
    hide Out;
    hide IsName;
    ghost var back := Out(Back(at));
    OutLast(name[..q0], at);
    assert forall i :: 0 <= i < q0 ==> name[i] == name[..q0][i];
    q := q0 - 1;
    while q > dotdot && name[q] != '/'
      invariant dotdot <= q < q0 && |back| <= q
      decreases q
    {
      q := q - 1;
    }
    assert q == |back|;
    assert name[..q] == name[..q0][..q];
  }

  /** The written text of a place with a name: that of the place above it, and the last name, after a slash unless it
      comes right behind the dot-dots or the root. */
  lemma OutLast(s: seq<char>, at: Place)
    requires s == Out(at) && Normal(at) && at.names != []
    ensures var n := |Out(Back(at))|;
      && Normal(Back(at)) && n < |s| && s[..n] == Out(Back(at)) && |Out(at.(names := []))| <= n
      && (forall i :: n < i < |s| ==> s[i] != '/') && (s[n] == '/' || n == |Out(at.(names := []))|)
  {
    OutBack(at);
    var e, back := at.names[|at.names| - 1], Out(Back(at));
    var slash := if Elems(Back(at)) == [] then "" else "/";
    LastPart(s, back, slash, e);
  }

  /** Write "..", after a slash unless it is the first element. */
  method WriteUp(name: array<char>, q0: nat, ghost at: Place) returns (q: nat)
    requires q0 <= name.Length && name[..q0] == Out(at) && Normal(at) && at.names == [] && !at.rooted
    requires q0 + 3 <= name.Length || (q0 == 0 && 2 <= name.Length)
    modifies name
    ensures q == q0 + (if q0 == 0 then 2 else 3) <= name.Length
    ensures name[..q] == Out(Back(at)) && Normal(Back(at))
    ensures forall i :: q <= i < name.Length ==> name[i] == old(name[i])
  {
    OutEnter(at, "..");
    ghost var was := name[..q0];
    q := q0;
    if q != 0 {
      name[q] := '/';
      q := q + 1;
    }
    name[q] := '.';
    name[q + 1] := '.';
    q := q + 2;
    assert name[..q] == was + (if q0 == 0 then [] else "/") + "..";
  }

  /** The rest of `text` is still in place from `p` on. */
  ghost predicate Tail(name: array<char>, text: seq<char>, p: nat)
    reads name
  {
    p <= |text| < name.Length && (forall i :: p <= i < |text| ==> name[i] == text[i]) && name[|text|] == '\0'
  }

  /** The element at the front of the rest of the path. */
  function ElemAt(text: seq<char>, p: nat): (e: Elem)
    requires p <= |text|
    ensures p + |e| <= |text| && e == text[p..p + |e|] && !Starts(text, p + |e|) && '/' !in e
  {
    var n := SlashAt(text[p..]);
    assert text[p..][..n] == text[p..p + n];
    text[p..p + n]
  }

  /** Copy an element down to `q0`.  The terminator is copied too, but the pointers stop at it. */
  method CopyDown(name: array<char>, ghost text: seq<char>, p0: nat, q0: nat) returns (p: nat, q: nat)
    requires q0 <= p0 && Tail(name, text, p0) && '\0' !in text
    modifies name
    ensures var e := ElemAt(text, p0);
      p == p0 + |e| && q == q0 + |e| && q <= p && Tail(name, text, p) && name[..q] == old(name[..q0]) + e
  {
    ghost var e, front := ElemAt(text, p0), name[..q0];
    hide ElemAt;
    p, q := p0, q0;
    name[q] := name[p];
    while name[q] != '/' && name[q] != '\0'
      invariant p0 <= p <= p0 + |e| && q0 <= q <= p && q - q0 == p - p0
      invariant Tail(name, text, p) && name[q] == name[p]
      invariant name[..q0] == front && forall i :: 0 <= i < p - p0 ==> name[q0 + i] == e[i]
      decreases |text| - p
    {
      assert Starts(text, p) && e[p - p0] == text[p];
      p, q := p + 1, q + 1;
      name[q] := name[p];
    }
    assert p < |text| ==> text[p] in text;
    Assembled(name[..q], q0, front, e);
  }

  lemma Assembled(s: seq<char>, n: nat, front: seq<char>, e: seq<char>)
    requires |s| == n + |e| && s[..n] == front && forall i :: 0 <= i < |e| ==> s[n + i] == e[i]
    ensures s == front + e
  {
  }

  /** Copy the element at `p0`, after a slash unless it is the first. */
  method CopyName(name: array<char>, ghost text: seq<char>, base: nat, p0: nat, q0: nat, ghost at: Place)
    returns (p: nat, q: nat)
    requires q0 <= p0 && Tail(name, text, p0) && '\0' !in text
    requires name[..q0] == Out(at) && Normal(at) && base == (if at.rooted then 1 else 0) && (q0 > base ==> q0 < p0)
    requires IsName(ElemAt(text, p0))
    modifies name
    ensures var e := ElemAt(text, p0);
      && p == p0 + |e| && q == q0 + |e| + (if q0 > base then 1 else 0) <= p && Tail(name, text, p)
      && name[..q] == Out(Enter(at, e)) && Normal(Enter(at, e))
  {
    ghost var e := ElemAt(text, p0);
    OutEnter(at, e);
    assert Elems(at) == [] <==> q0 == base;
    hide ElemAt;
    hide Normal;
    hide Out;
    hide Enter;
    q := q0;
    if q != base {
      name[q] := '/';
      q := q + 1;
      assert name[..q] == old(name[..q0]) + "/";
    }
    p, q := CopyDown(name, text, p0, q);
  }

  lemma Slices(text: seq<char>, p: nat, n: nat)
    requires p + n <= |text|
    ensures text[p..][..n] == text[p..p + n] && text[p..][n..] == text[p + n..] && |text[p..p + n]| == n
  {
  }

  lemma TakeAt(at: Place, text: seq<char>, p: nat)
    requires p <= |text|
    ensures var e := ElemAt(text, p); Follow(at, Split(text[p..])) == Follow(Enter(at, e), Split(text[p + |e|..]))
  {
    TakeElem(at, text[p..]);
    var n := SlashAt(text[p..]);
    hide *;
    Slices(text, p, n);
  }

  lemma ElemIs(text: seq<char>, p: nat, n: nat)
    requires p + n <= |text| && '/' !in text[p..p + n] && !Starts(text, p + n)
    ensures ElemAt(text, p) == text[p..p + n]
  {
  }

  /** `p` is at an element "." or "..": what the tests of the loop see. */
  lemma DotTests(text: seq<char>, p: nat)
    requires Starts(text, p)
    ensures ElemAt(text, p) == "." <==> text[p] == '.' && !Starts(text, p + 1)
    ensures ElemAt(text, p) == ".." <==> text[p] == '.' && p + 1 < |text| && text[p + 1] == '.' && !Starts(text, p + 2)
    ensures ElemAt(text, p) != []
  {
    var e := ElemAt(text, p);
    if text[p] == '.' && !Starts(text, p + 1) {
      assert text[p..p + 1] == ".";
      ElemIs(text, p, 1);
    }
    if text[p] == '.' && p + 1 < |text| && text[p + 1] == '.' && !Starts(text, p + 2) {
      assert text[p..p + 2] == "..";
      ElemIs(text, p, 2);
    }
    if |e| >= 1 { assert e[0] == text[p]; }
    if |e| >= 2 { assert e[1] == text[p + 1]; }
  }

  lemma SlashStep(text: seq<char>, p: nat, q: nat, dotdot: nat, erased: bool, at: Place)
    requires Cleaned(text, p, q, dotdot, erased, at) && p < |text| && text[p] == '/'
    ensures Cleaned(text, p + 1, q, dotdot, erased, at)
  {
    SkipSlash(at, text[p..]);
    assert text[p..][1..] == text[p + 1..];
    hide Meaning;
    hide Follow;
    hide Split;
    hide Out;
  }

  lemma BeginErased(text: seq<char>)
    ensures Begin(text).erased ==> ElemAt(text, 0) == "."
  {
    assert text[0..] == text;
  }

  lemma DotStep(text: seq<char>, p: nat, q: nat, dotdot: nat, erased: bool, at: Place)
    requires Cleaned(text, p, q, dotdot, erased, at) && p < |text| && ElemAt(text, p) == "."
    ensures Cleaned(text, p + 1, q, dotdot, erased || p == 0, at)
  {
    TakeAt(at, text, p);
    if p == 0 { RootedIff(text); }
    hide Meaning;
    hide Follow;
    hide Split;
    hide Out;
  }

  /** A relative path that begins with the element "." has an erased front from the start. */
  lemma RootedIff(text: seq<char>)
    requires text != [] && ElemAt(text, 0) == "."
    ensures !Rooted(text) && Begin(text).erased
  {
    assert text[0..] == text && text[..1] == ".";
    TakeElem(Place(false, 0, [], false), text);
  }

  /** ".." as far as it can be undone. */
  lemma BackStep(text: seq<char>, p: nat, q: nat, dotdot: nat, erased: bool, at: Place)
    requires Cleaned(text, p, q, dotdot, erased, at) && p < |text| && ElemAt(text, p) == ".."
    requires at.names != [] || at.rooted
    ensures var q' := |Out(Back(at))|; Cleaned(text, p + 2, q', dotdot, erased || q' == 0, Back(at))
  {
    TakeAt(at, text, p);
    BeginErased(text);
    NowhereIsEmpty(Back(at));
    if at.names != [] { OutBack(at); }
    hide Meaning;
    hide Follow;
    hide Split;
    hide Out;
  }

  lemma NowhereIsEmpty(at: Place)
    requires Normal(at)
    ensures Out(at) == [] <==> !at.rooted && at.ups == 0 && at.names == []
  {
    ElemsSlashFree(at);
    if Elems(at) != [] { JoinFirst(Elems(at)); }
  }

  /** ".." that must stay. */
  lemma UpStep(text: seq<char>, p: nat, q: nat, dotdot: nat, erased: bool, at: Place)
    requires Cleaned(text, p, q, dotdot, erased, at) && p < |text| && ElemAt(text, p) == ".."
    requires at.names == [] && !at.rooted
    ensures var q' := q + (if q == 0 then 2 else 3); q' > 0 && q' <= p + 2 && Cleaned(text, p + 2, q', q', erased, Back(at))
  {
    TakeAt(at, text, p);
    BeginErased(text);
    OutEnter(at, "..");
    NowhereIsEmpty(at);
    assert Back(at).(names := []) == Back(at);
    assert Starts(text, p) by { assert text[p] in ElemAt(text, p); }
    hide Meaning;
    hide Follow;
    hide Split;
    hide Out;
  }

  lemma NameStep(text: seq<char>, p: nat, q: nat, dotdot: nat, erased: bool, at: Place)
    requires Cleaned(text, p, q, dotdot, erased, at) && Starts(text, p) && IsName(ElemAt(text, p))
    ensures var e := ElemAt(text, p);
      var q' := q + |e| + (if q > (if Rooted(text) then 1 else 0) then 1 else 0);
      Cleaned(text, p + |e|, q', dotdot, erased, Enter(at, e))
    ensures q <= p && Normal(at) && at.rooted == Rooted(text) && (q > (if Rooted(text) then 1 else 0) ==> q < p)
  {
    var e := ElemAt(text, p);
    TakeAt(at, text, p);
    BeginErased(text);
    OutEnter(at, e);
    OutLength(at);
    assert Enter(at, e).(names := []) == at.(names := []);
    hide Meaning;
    hide Follow;
    hide Split;
    hide Out;
  }

  lemma OutLength(at: Place)
    ensures |Out(at)| >= if at.rooted then 1 else 0
  {
  }

  /** The elements "." and "..". */
  method Dots(name: array<char>, ghost text: seq<char>, base: nat, p0: nat, q0: nat, dotdot0: nat, erased0: bool, ghost at0: Place)
    returns (p: nat, q: nat, dotdot: nat, erased: bool, ghost at: Place)
    requires Progress(name, text, p0, q0, dotdot0, erased0, at0) && p0 < |text| && ElemAt(text, p0) == ".."
    requires base == if Rooted(text) then 1 else 0
    modifies name
    ensures p > p0 && Progress(name, text, p, q, dotdot, erased, at)
  {
    NowhereIsEmpty(at0);
    NamesLengthen(at0);
    p, q, dotdot, erased, at := p0 + 2, q0, dotdot0, erased0, Back(at0);
    if q > dotdot {
      BackStep(text, p0, q0, dotdot0, erased0, at0);
      q := Backtrack(name, q, dotdot, at0);
    } else if base == 0 {
      UpStep(text, p0, q0, dotdot0, erased0, at0);
      q := WriteUp(name, q, at0);
      dotdot := q;
    } else {
      BackStep(text, p0, q0, dotdot0, erased0, at0);
    }
    if q == 0 {
      erased := true;
    }
  }

  /** One round of the loop: consume a slash or an element. */
  method Step(name: array<char>, ghost text: seq<char>, base: nat, p0: nat, q0: nat, dotdot0: nat, erased0: bool, ghost at0: Place)
    returns (p: nat, q: nat, dotdot: nat, erased: bool, ghost at: Place)
    requires Progress(name, text, p0, q0, dotdot0, erased0, at0) && p0 < |text| && '\0' !in text
    requires base == if Rooted(text) then 1 else 0
    modifies name
    ensures p > p0 && Progress(name, text, p, q, dotdot, erased, at)
  {
    hide Cleaned;
    hide Out;
    hide Normal;
    hide ElemAt;
    p, q, dotdot, erased, at := p0, q0, dotdot0, erased0, at0;
    if name[p] == '/' {
      SlashStep(text, p, q, dotdot, erased, at);
      p := p + 1;
      return;
    }
    DotTests(text, p);
    assert text[p] in text;
    if name[p] == '.' && (name[p + 1] == '/' || name[p + 1] == '\0') {
      DotStep(text, p, q, dotdot, erased, at);
      if p == 0 {
        erased := true;
      }
      p := p + 1;
    } else if name[p] == '.' && name[p + 1] == '.' && (name[p + 2] == '/' || name[p + 2] == '\0') {
      p, q, dotdot, erased, at := Dots(name, text, base, p, q, dotdot, erased, at);
    } else {
      NameStep(text, p, q, dotdot, erased, at);
      ghost var e := ElemAt(text, p);
      p, q := CopyName(name, text, base, p, q, at);
      at := Enter(at, e);
    }
  }

  /** The loop of cleanname. */
  method Rewrite(name: array<char>, ghost text: seq<char>) returns (q: nat, erased: bool)
    requires Tail(name, text, 0) && '\0' !in text && name[..|text|] == text
    modifies name
    ensures var at := Meaning(text);
      && q <= |text| && name[..q] == Out(at) && erased == at.erased && Normal(at)
      && (erased && q > 0 ==> q + 2 <= |text|)
  {
    var base := if name[0] == '/' then 1 else 0;
    var p, dotdot;
    p, q, dotdot, erased := base, base, base, false;
    ghost var at := Begin(text);
    StartsClean(text);
    assert name[..base] == Out(at);
    while name[p] != '\0'
      invariant Progress(name, text, p, q, dotdot, erased, at)
      decreases |text| - p
    {
      p, q, dotdot, erased, at := Step(name, text, base, p, q, dotdot, erased, at);
    }
    EndsClean(text, p, q, dotdot, erased, at);
  }

  lemma EndsClean(text: seq<char>, p: nat, q: nat, dotdot: nat, erased: bool, at: Place)
    requires Cleaned(text, p, q, dotdot, erased, at) && p == |text|
    ensures Meaning(text) == at && erased == at.erased && Normal(at) && (erased && q > 0 ==> q + 2 <= |text|)
  {
    assert text[p..] == [] && Split([]) == [[]] && Follow(at, [[]]) == Follow(Enter(at, []), []) == at;
    BeginErased(text);
    assert |ElemAt(text, 0)| <= |text|;
    hide Out;
    hide Meaning;
  }

  /** cleanname: the string is replaced by its clean form, which is never longer unless the string was empty. */
  method CleanInPlace(name: array<char>, ghost n: nat)
    requires n < name.Length && name[n] == '\0' && '\0' !in name[..n] && (n == 0 ==> name.Length >= 2)
    modifies name
    ensures var c := Clean(old(name[..n]));
      |c| < name.Length && name[..|c|] == c && name[|c|] == '\0' && (n > 0 ==> |c| <= n)
  {
    ghost var text := name[..n];
    var q, erased := Rewrite(name, text);
    hide Meaning;
    hide Normal;
    hide Out;
    Terminate(name, q, erased, n, Meaning(text));
  }

  /** The end of cleanname: the name of nowhere, the terminator, and the protected device. */
  method Terminate(name: array<char>, q0: nat, erased: bool, ghost n: nat, ghost at: Place)
    requires q0 <= n < name.Length && 2 <= name.Length && name[..q0] == Out(at) && erased == at.erased
    requires erased && q0 > 0 ==> q0 + 2 <= n
    modifies name
    ensures var c := Written(at);
      |c| < name.Length && name[..|c|] == c && name[|c|] == '\0' && (n > 0 ==> |c| <= n)
  {
    ghost var s := if Out(at) == [] then "." else Out(at);
    hide Out;
    var q := q0;
    if q == 0 {
      name[q] := '.';
      q := q + 1;
    }
    name[q] := '\0';
    assert name[..q] == s;
    assert name[0] == s[0];
    if erased && name[0] == '#' {
      forall i | 0 <= i <= q { name[i + 2] := name[i]; }
      name[0] := '.';
      name[1] := '/';
      assert name[..q + 2] == "./" + s;
    }
  }

  lemma StartsClean(text: seq<char>)
    ensures var base := if Rooted(text) then 1 else 0; Cleaned(text, base, base, base, false, Begin(text))
  {
    if Rooted(text) {
      SkipSlash(Begin(text), text);
    } else {
      assert text[0..] == text;
    }
  }
}
