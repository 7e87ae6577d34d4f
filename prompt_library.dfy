/** `PromptLibrary`: the saved AI instructions, kept in the settings table under keys
    that start with `prompt_`, with a built-in default that cannot be deleted. */
module PromptLibrary {
  import opened Wrappers
  import opened Text
  import opened Storage

  datatype Prompt = Prompt(name: string, content: string, created: int)

  const Prefix := "prompt_"
  const DefaultId := "prompt_default"

  const DefaultName := "Default Template Variables"
  const DefaultContent :=
    "Improve this content by making it more engaging, professional, and easier to read. "
    + "Format your response with clear section headers and variables like hero_h1, hero_text, "
    + "hero_cta, sec1_h2, sec1_text, sec1_cta, etc."

  /** `getDefault()`, stamped with the current time in milliseconds. */
  function Default(now: int): (r: Prompt)
    ensures r.name == DefaultName && r.content == DefaultContent && r.created == now
  {
    Prompt(DefaultName, DefaultContent, now)
  }

  // ---------------------------------------------------------------------------
  // createId

  /** `[a-z0-9]`, the characters an identifier keeps. */
  predicate IsSlugChar(c: char)
  {
    ('a' <= c <= 'z') || ('0' <= c <= '9')
  }

  /** `toLowerCase` on one character, as far as membership in `[a-z0-9]` can tell:
      ASCII capitals, KELVIN SIGN (lower case `k`) and LATIN CAPITAL LETTER I WITH DOT
      ABOVE (lower case `i` and a combining dot) are lowered; every other character
      either is its own lower case or lowers to characters outside `[a-z0-9]`, and is
      kept as it is. */
  function LowerForSlug(c: char): string
  {
    if 'A' <= c <= 'Z' then [(c as int + 32) as char]
    else if c == '\U{212A}' then "k"
    else if c == '\U{0130}' then "i\U{0307}"
    else [c]
  }

  function LowerName(s: string): string
  {
    if s == [] then [] else LowerForSlug(s[0]) + LowerName(s[1..])
  }

  /** Drops a leading run of characters outside `[a-z0-9]`. */
  function DropRun(s: string): (r: string)
    ensures |r| <= |s| && r == s[|s| - |r|..]
    ensures r == [] || IsSlugChar(r[0])
  {
    if s == [] || IsSlugChar(s[0]) then s else DropRun(s[1..])
  }

  /** `.replace(/[^a-z0-9]+/g, '_')`: each maximal run of other characters becomes
      one underscore. */
  function Slug(s: string): string
    decreases |s|
  {
    if s == [] then []
    else if IsSlugChar(s[0]) then [s[0]] + Slug(s[1..])
    else "_" + Slug(DropRun(s[1..]))
  }

  /** `createId(name)`. */
  function CreateId(name: string): string
  {
    Prefix + Slug(LowerName(name))
  }

  predicate SlugShaped(t: string)
  {
    (forall i :: 0 <= i < |t| ==> IsSlugChar(t[i]) || t[i] == '_')
    && (forall i :: 0 <= i < |t| - 1 ==> !(t[i] == '_' && t[i + 1] == '_'))
  }

  /** A slug holds only `[a-z0-9_]`, never two underscores in a row, and starts with
      a kept character whenever its input does. */
  lemma {:induction false} SlugShape(s: string)
    ensures SlugShaped(Slug(s))
    ensures s != [] && IsSlugChar(s[0]) ==> Slug(s) != [] && Slug(s)[0] == s[0]
    decreases |s|
  {
    if s != [] {
      if IsSlugChar(s[0]) {
        SlugShape(s[1..]);
        var t := Slug(s[1..]);
        assert Slug(s) == [s[0]] + t;
      } else {
        var d := DropRun(s[1..]);
        SlugShape(d);
        var t := Slug(d);
        assert Slug(s) == "_" + t;
        assert t == [] || IsSlugChar(t[0]);
      }
    }
  }

  /** The characters of `[a-z0-9]`, in order. */
  function Kept(s: string): string
  {
    if s == [] then [] else (if IsSlugChar(s[0]) then [s[0]] else []) + Kept(s[1..])
  }

  lemma {:induction false} KeptOfRun(s: string)
    ensures Kept(DropRun(s)) == Kept(s)
  {
    if s != [] && !IsSlugChar(s[0]) {
      KeptOfRun(s[1..]);
    }
  }

  /** The slug loses none of the letters and digits of its input and reorders none. */
  lemma {:induction false} SlugKeeps(s: string)
    ensures Kept(Slug(s)) == Kept(s)
    decreases |s|
  {
    if s != [] {
      if IsSlugChar(s[0]) {
        SlugKeeps(s[1..]);
        assert ([s[0]] + Slug(s[1..]))[1..] == Slug(s[1..]);
      } else {
        var d := DropRun(s[1..]);
        SlugKeeps(d);
        KeptOfRun(s[1..]);
        assert ("_" + Slug(d))[1..] == Slug(d);
      }
    }
  }

  /** A string already shaped like a slug is its own slug. */
  lemma {:induction false} SlugFixes(t: string)
    requires SlugShaped(t)
    ensures Slug(t) == t
    decreases |t|
  {
    if t != [] {
      var rest := t[1..];
      ShapedTail(t);
      SlugFixes(rest);
      assert t == [t[0]] + rest;
      if !IsSlugChar(t[0]) {
        assert t[0] == '_';
        assert rest == [] || IsSlugChar(rest[0]) by {
          if rest != [] {
            assert rest[0] == t[1];
          }
        }
        assert DropRun(rest) == rest;
      }
    }
  }

  lemma ShapedTail(t: string)
    requires t != [] && SlugShaped(t)
    ensures SlugShaped(t[1..])
  {
    var rest := t[1..];
    forall i | 0 <= i < |rest|
      ensures IsSlugChar(rest[i]) || rest[i] == '_'
    {
      assert rest[i] == t[i + 1];
    }
    forall i | 0 <= i < |rest| - 1
      ensures !(rest[i] == '_' && rest[i + 1] == '_')
    {
      assert rest[i] == t[i + 1] && rest[i + 1] == t[i + 2];
    }
  }

  /** Slugging twice changes nothing. */
  lemma SlugIdempotent(s: string)
    ensures Slug(Slug(s)) == Slug(s)
  {
    SlugShape(s);
    SlugFixes(Slug(s));
  }

  /** Every created ID lies in the library's key space, so the listing finds it, and
      after the prefix it holds only `[a-z0-9_]` with no doubled underscore. */
  lemma CreateIdShape(name: string)
    ensures StartsWith(CreateId(name), Prefix)
    ensures SlugShaped(CreateId(name)[|Prefix|..])
  {
    SlugShape(LowerName(name));
    assert CreateId(name)[|Prefix|..] == Slug(LowerName(name));
  }

  lemma LowerNameCons(c: char, s: string)
    ensures LowerName([c] + s) == LowerForSlug(c) + LowerName(s)
  {
    assert ([c] + s)[1..] == s;
  }

  /** Names already in `[a-z0-9]` are not changed by lowering. */
  lemma {:induction false} LowerNameKeeps(s: string)
    requires forall i :: 0 <= i < |s| ==> IsSlugChar(s[i])
    ensures LowerName(s) == s
  {
    if s != [] {
      LowerNameKeeps(s[1..]);
    }
  }

  /** A prompt named `Default` gets the default prompt's ID, so saving it replaces
      the default and it can never be deleted. */
  lemma LowerDefault()
    ensures LowerName("Default") == "default"
  {
    LowerTail();
    LowerNameCons('D', "efault");
    assert ['D'] + "efault" == "Default";
    assert LowerForSlug('D') + "efault" == "default";
  }

  lemma LowerTail()
    ensures LowerName("efault") == "efault"
  {
    assert IsSlugChar('e') && IsSlugChar('f') && IsSlugChar('a') && IsSlugChar('u')
           && IsSlugChar('l') && IsSlugChar('t');
    LowerNameKeeps("efault");
  }

  lemma SlugDefault()
    ensures Slug("default") == "default"
  {
    assert SlugShaped("default");
    SlugFixes("default");
  }

  lemma DefaultNameCollides()
    ensures CreateId("Default") == DefaultId
  {
    LowerDefault();
    SlugDefault();
    assert CreateId("Default") == Prefix + Slug("default");
  }

  // ---------------------------------------------------------------------------
  // The stored library

  /** `getAllAsync()`: the stored prompts; when there are none, the default is
      stamped with `now`, returned, and stored (a failed write goes unnoticed). */
  method GetAll(store: KvStore<Prompt>, now: int, fault: bool) returns (prompts: map<string, Prompt>)
    modifies store
    ensures Filter(old(store.data), Prefix) != map[] ==>
              prompts == Filter(old(store.data), Prefix) && store.data == old(store.data)
    ensures Filter(old(store.data), Prefix) == map[] ==>
              prompts == map[DefaultId := Default(now)]
              && store.data == (if fault then old(store.data) else old(store.data)[DefaultId := Default(now)])
    ensures Filter(old(store.data), Prefix) == map[] && !fault ==> Get(store, DefaultId) == Some(Default(now))
  {
    prompts := store.WithPrefix(Prefix);
    if |prompts| == 0 {
      var d := Default(now);
      prompts := prompts[DefaultId := d];
      var _ := store.Set(DefaultId, d, fault);
    }
  }

  /** Once the default has been stored, the next listing returns it as stored, so
      its time stamp does not change from one listing to the next. */
  lemma SeededListing(data: map<string, Prompt>, d: Prompt)
    requires Filter(data, Prefix) == map[]
    ensures Filter(data[DefaultId := d], Prefix) == map[DefaultId := d]
  {
    assert StartsWith(DefaultId, Prefix);
  }

  /** `getAsync(id)`: the stored prompt, or nothing (`null`). */
  function Get(store: KvStore<Prompt>, id: string): (r: Option<Prompt>)
    reads store
    ensures r.Some? <==> id in store.data
    ensures r.Some? ==> r.value == store.data[id]
  {
    store.Get(id)
  }

  /** `saveAsync(id, prompt)`: creates or replaces the prompt. */
  method Save(store: KvStore<Prompt>, id: string, prompt: Prompt, fault: bool) returns (ok: bool)
    modifies store
    ensures ok == !fault
    ensures ok ==> store.data == old(store.data)[id := prompt]
    ensures !ok ==> store.data == old(store.data)
    ensures ok ==> Get(store, id) == Some(prompt)
    ensures forall other :: other != id ==> Get(store, other) == old(Get(store, other))
  {
    ok := store.Set(id, prompt, fault);
  }

  /** `deleteAsync(id)`: the default prompt is refused; any other ID is removed when
      it is stored and the database does not fail. */
  method Delete(store: KvStore<Prompt>, id: string, fault: bool) returns (ok: bool)
    modifies store
    ensures id == DefaultId ==> !ok
    ensures ok <==> id != DefaultId && !fault && id in old(store.data)
    ensures ok ==> store.data == old(store.data) - {id}
    ensures !ok ==> store.data == old(store.data)
    ensures DefaultId in store.data <==> DefaultId in old(store.data)
    ensures ok ==> Get(store, id).None?
    ensures forall other :: other != id ==> Get(store, other) == old(Get(store, other))
  {
    if id == DefaultId {
      return false;
    }
    ok := store.Delete(id, fault);
  }
}
