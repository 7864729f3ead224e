/** The symlink rewriter of a relocation unit: which link texts survive a copy unchanged, which are
    re-anchored at the public namespace, and that either way the lexical meaning is kept. */
module LinkRewrite {

  /** A link text split at its slashes. `parts` may hold empty, "." and ".." components. */
  datatype LinkText = Absolute(parts: seq<string>) | Relative(parts: seq<string>)

  predicate Ordinary(name: string) {
    name != "" && name != "." && name != ".."
  }

  predicate AllOrdinary(names: seq<string>) {
    forall i :: 0 <= i < |names| ==> Ordinary(names[i])
  }

  /** One component of POSIX path normalisation, applied to the components kept so far. */
  function Push(kept: seq<string>, part: string, rooted: bool): seq<string> {
    if part == "" || part == "." then kept
    else if part != ".." then kept + [part]
    else if kept == [] then if rooted then [] else [".."]
    else if kept[|kept| - 1] == ".." then kept + [".."]
    else kept[..|kept| - 1]
  }

  function Normalize(kept: seq<string>, parts: seq<string>, rooted: bool): seq<string>
    decreases |parts|
  {
    if parts == [] then kept else Normalize(Push(kept, parts[0], rooted), parts[1..], rooted)
  }

  /** The directory, relative to the unit, in which the entry `rel` lies. */
  function Parent(rel: seq<string>): seq<string> {
    if rel == [] then [] else rel[..|rel| - 1]
  }

  /** Whether a relative text, read lexically from its own directory, never climbs out of the unit. */
  predicate StaysInside(rel: seq<string>, parts: seq<string>) {
    var place := Normalize([], Parent(rel) + parts, false);
    place == [] || place[0] != ".."
  }

  function CopiedLink(source: seq<string>, rel: seq<string>, raw: LinkText): LinkText {
    match raw
    case Absolute(_) => raw
    case Relative(parts) =>
      if StaysInside(rel, parts) then raw
      else Absolute(Normalize([], source + Parent(rel) + parts, true))
  }

  /** The absolute place a link text names when the link sits at `rel` below the directory `base`. */
  function Denotes(base: seq<string>, rel: seq<string>, text: LinkText): seq<string> {
    match text
    case Absolute(parts) => Normalize([], parts, true)
    case Relative(parts) => Normalize([], base + Parent(rel) + parts, true)
  }

  /** Walking these components from `depth` directories below the unit's top at some point leaves the unit. */
  predicate Escapes(depth: nat, parts: seq<string>)
    decreases |parts|
  {
    parts != [] &&
    if parts[0] == "" || parts[0] == "." then Escapes(depth, parts[1..])
    else if parts[0] == ".." then depth == 0 || Escapes(depth - 1, parts[1..])
    else Escapes(depth + 1, parts[1..])
  }

  lemma {:induction false} EscapesExactly(kept: seq<string>, parts: seq<string>)
    requires AllOrdinary(kept)
    ensures var place := Normalize(kept, parts, false); (place != [] && place[0] == "..") <==> Escapes(|kept|, parts)
    decreases |parts|
  {
    if parts != [] {
      if parts[0] == ".." && kept == [] {
        ClimbPersists([".."], parts[1..]);
      } else {
        EscapesExactly(Push(kept, parts[0], false), parts[1..]);
      }
    }
  }

  /** A relative text is kept as inside exactly when following it step by step never leaves the unit. */
  lemma StaysExactly(rel: seq<string>, parts: seq<string>)
    ensures StaysInside(rel, parts) <==> !Escapes(0, Parent(rel) + parts)
  {
    EscapesExactly([], Parent(rel) + parts);
  }

  lemma {:induction false} NormalizeConcat(kept: seq<string>, a: seq<string>, b: seq<string>, rooted: bool)
    ensures Normalize(kept, a + b, rooted) == Normalize(Normalize(kept, a, rooted), b, rooted)
    decreases |a|
  {
    if a == [] {
      assert a + b == b;
    } else {
      assert (a + b)[0] == a[0] && (a + b)[1..] == a[1..] + b;
      NormalizeConcat(Push(kept, a[0], rooted), a[1..], b, rooted);
    }
  }

  lemma {:induction false} NormalizeOrdinary(kept: seq<string>, names: seq<string>, rooted: bool)
    requires AllOrdinary(names)
    ensures Normalize(kept, names, rooted) == kept + names
    decreases |names|
  {
    if names == [] {
      assert kept + names == kept;
    } else {
      NormalizeOrdinary(kept + [names[0]], names[1..], rooted);
      assert kept + [names[0]] + names[1..] == kept + names;
    }
  }

  lemma {:induction false} RootedStaysOrdinary(kept: seq<string>, parts: seq<string>)
    requires AllOrdinary(kept)
    ensures AllOrdinary(Normalize(kept, parts, true))
    decreases |parts|
  {
    if parts != [] {
      RootedStaysOrdinary(Push(kept, parts[0], true), parts[1..]);
    }
  }

  /** Once ".." leads the kept components of a relative text, it stays there. */
  lemma {:induction false} ClimbPersists(kept: seq<string>, parts: seq<string>)
    requires kept != [] && kept[0] == ".."
    ensures var place := Normalize(kept, parts, false); place != [] && place[0] == ".."
    decreases |parts|
  {
    if parts != [] {
      ClimbPersists(Push(kept, parts[0], false), parts[1..]);
    }
  }

  /** A text that never climbs out normalises the same below every base. */
  lemma {:induction false} InsideBelow(base: seq<string>, kept: seq<string>, parts: seq<string>)
    requires AllOrdinary(kept)
    requires var place := Normalize(kept, parts, false); place == [] || place[0] != ".."
    ensures Normalize(base + kept, parts, true) == base + Normalize(kept, parts, false)
    decreases |parts|
  {
    if parts != [] {
      var next := Push(kept, parts[0], false);
      if parts[0] == ".." && kept == [] {
        ClimbPersists(next, parts[1..]);
      } else {
        if parts[0] == ".." {
          assert (base + kept)[|base + kept| - 1] == kept[|kept| - 1];
          assert (base + kept)[..|base + kept| - 1] == base + kept[..|kept| - 1];
        } else {
          assert base + kept + [parts[0]] == base + (kept + [parts[0]]);
        }
        assert Push(base + kept, parts[0], true) == base + next;
        InsideBelow(base, next, parts[1..]);
      }
    }
  }

  /** Inside targets: the text is copied unchanged and names the same place below the unit. */
  lemma {:induction false} InsideKeepsPlace(source: seq<string>, destination: seq<string>, rel: seq<string>, parts: seq<string>)
    requires AllOrdinary(source) && AllOrdinary(destination)
    requires !Escapes(0, Parent(rel) + parts)
    ensures CopiedLink(source, rel, Relative(parts)) == Relative(parts)
    ensures exists place ::
      Denotes(source, rel, Relative(parts)) == source + place
      && Denotes(destination, rel, CopiedLink(source, rel, Relative(parts))) == destination + place
  {
    var place := Normalize([], Parent(rel) + parts, false);
    StaysExactly(rel, parts);
    forall base | AllOrdinary(base) ensures Denotes(base, rel, Relative(parts)) == base + place {
      assert base + Parent(rel) + parts == base + (Parent(rel) + parts);
      NormalizeConcat([], base, Parent(rel) + parts, true);
      NormalizeOrdinary([], base, true);
      assert [] + base == base && base + [] == base;
      InsideBelow(base, [], Parent(rel) + parts);
    }
    assert Denotes(source, rel, Relative(parts)) == source + place;
  }

  /** Every other target: the copied text names the original lexical absolute place. */
  lemma {:induction false} OutsideKeepsMeaning(source: seq<string>, destination: seq<string>, rel: seq<string>, raw: LinkText)
    requires raw.Relative? ==> Escapes(0, Parent(rel) + raw.parts)
    ensures Denotes(destination, rel, CopiedLink(source, rel, raw)) == Denotes(source, rel, raw)
  {
    if raw.Relative? {
      StaysExactly(rel, raw.parts);
      var place := Normalize([], source + Parent(rel) + raw.parts, true);
      RootedStaysOrdinary([], source + Parent(rel) + raw.parts);
      NormalizeOrdinary([], place, true);
      assert [] + place == place;
    }
  }
}
