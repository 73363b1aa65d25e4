/** The artifact path resolver, `ImageGenerator.generate_image_path`: from the
    recorded prompt, negative prompt, seed, guidance and frame count to
    `<root>/<folder>/<stem>`.  Folder creation is not modelled. */
module ArtifactPath {
  import opened Wrappers
  import opened Text

  /** Combined length that the prompt and negative prompt are cut down to. */
  const Budget: nat := 50

  /** An absent prompt is treated as the empty string. */
  function OrEmpty(s: Option<string>): (r: string)
    ensures s.Some? ==> r == s.value
    ensures s.None? ==> r == ""
  {
    if s.None? then "" else s.value
  }

  /** How an f-string renders an optional field: `None` prints as "None". */
  function Render(s: Option<string>): (r: string)
    ensures s.None? ==> r == "None"
  {
    match s
    case None => "None"
    case Some(v) => v
  }

  /** The replace chain applied to each prompt; it never lengthens it. */
  function Normalise(s: string): (r: string)
    ensures |r| <= |s|
  {
    Replace(Replace(Replace(Replace(s, "/", "_"), ", ", ","), ". ", ","), " ", "_")
  }

  /** After normalising, a prompt contains neither a path separator nor a space. */
  lemma NormaliseSafe(s: string)
    ensures '/' !in Normalise(s) && ' ' !in Normalise(s)
  {
    var a := Replace(s, "/", "_");
    ReplaceCharRemoves(s, '/', "_");
    var b := Replace(a, ", ", ",");
    ReplaceKeepsAbsent(a, ", ", ",", '/');
    var c := Replace(b, ". ", ",");
    ReplaceKeepsAbsent(b, ". ", ",", '/');
    ReplaceKeepsAbsent(c, " ", "_", '/');
    ReplaceCharRemoves(c, ' ', "_");
  }

  /** `int(50 * x / total)` for the share `x` of `total`, computed exactly. */
  function Share(x: nat, total: nat): (r: nat)
    requires x <= total && total > Budget
    ensures r <= x
    ensures r * total <= Budget * x < (r + 1) * total
  {
    var r := (Budget * x) / total;
    assert Budget * x < (x + 1) * total by {
      assert Budget * x <= total * x;
    }
    r
  }

  /** A prompt with nothing the chain rewrites is left as it is. */
  lemma NormaliseKeepsClean(s: string)
    requires '/' !in s && ',' !in s && '.' !in s && ' ' !in s
    ensures Normalise(s) == s
  {
    ReplaceAbsentPattern(s, "/", "_");
    ReplaceAbsentPattern(s, ", ", ",");
    ReplaceAbsentPattern(s, ". ", ",");
    ReplaceAbsentPattern(s, " ", "_");
  }

  /** Cut both prompts to their proportional share of the budget when together
      they are longer than it; each keeps a prefix. */
  function Truncate(p: string, n: string): (r: (string, string))
    ensures r.0 <= p && r.1 <= n
  {
    var total := |p| + |n|;
    if total > Budget then (p[..Share(|p|, total)], n[..Share(|n|, total)])
    else (p, n)
  }

  /** Within the budget nothing is cut. */
  lemma TruncateWithinBudget(p: string, n: string)
    requires |p| + |n| <= Budget
    ensures Truncate(p, n) == (p, n)
  {
  }

  /** Over the budget, the cut prompts fill it up to rounding: together they
      are 49 or 50 characters long. */
  lemma TruncateFillsBudget(p: string, n: string)
    requires |p| + |n| > Budget
    ensures Budget - 1 <= |Truncate(p, n).0| + |Truncate(p, n).1| <= Budget
  {
    var total := |p| + |n|;
    var a, b := Share(|p|, total), Share(|n|, total);
    assert (a + b) * total == a * total + b * total;
    assert (a + b + 2) * total == (a + 1) * total + (b + 1) * total;
    assert Budget * total == Budget * |p| + Budget * |n|;
    CancelFactor(a + b, Budget + 1, total);
    CancelFactor(Budget, a + b + 2, total);
  }

  /** Dividing both sides of a strict inequality by a positive factor. */
  lemma CancelFactor(x: int, y: int, t: int)
    requires t > 0 && x * t < y * t
    ensures x < y
  {
  }

  /** Over the budget, each cut prompt gets the floor of its share of it, so
      the longer prompt keeps at least as many characters as the shorter. */
  lemma TruncateProportional(p: string, n: string)
    requires |p| + |n| > Budget
    ensures var total := |p| + |n|;
            |Truncate(p, n).0| * total <= Budget * |p| < (|Truncate(p, n).0| + 1) * total
    ensures var total := |p| + |n|;
            |Truncate(p, n).1| * total <= Budget * |n| < (|Truncate(p, n).1| + 1) * total
    ensures |p| <= |n| ==> |Truncate(p, n).0| <= |Truncate(p, n).1|
  {
    var total := |p| + |n|;
    var a, b := Share(|p|, total), Share(|n|, total);
    if |p| <= |n| {
      assert Budget * |p| <= Budget * |n|;
      assert a * total < (b + 1) * total;
      CancelFactor(a, b + 1, total);
    }
  }

  /** `'_'.join((p + "," + n).split(','))`: one character longer than the
      two prompts, and without a comma. */
  function FolderName(p: string, n: string): (r: string)
    ensures |r| == |p| + |n| + 1
    ensures ',' !in r
  {
    JoinSplitIsMap(p + "," + n, ',', '_');
    MapCharRemoves(p + "," + n, ',', '_');
    Join(Split(p + "," + n, ','), "_")
  }

  /** The folder name is the two prompts with commas turned into underscores,
      joined by an underscore; it contains no comma. */
  lemma FolderNameShape(p: string, n: string)
    ensures FolderName(p, n) == MapChar(p, ',', '_') + "_" + MapChar(n, ',', '_')
    ensures ',' !in FolderName(p, n)
  {
    JoinSplitIsMap(p + "," + n, ',', '_');
    MapCharConcat(p + ",", n, ',', '_');
    MapCharConcat(p, ",", ',', '_');
    MapCharRemoves(p + "," + n, ',', '_');
  }

  /** `f"{seed}_{count}_{guidance}".replace(".", "_")`: the stem has no dot. */
  function FileStem(seed: string, count: nat, guidance: string): (r: string)
    ensures '.' !in r
  {
    ReplaceCharRemoves(seed + "_" + NatToString(count) + "_" + guidance, '.', "_");
    Replace(seed + "_" + NatToString(count) + "_" + guidance, ".", "_")
  }

  /** The stem is the seed, the decimal frame count and the guidance joined by
      underscores, with the dots of seed and guidance turned into underscores;
      it has no dot. */
  lemma FileStemShape(seed: string, count: nat, guidance: string)
    ensures FileStem(seed, count, guidance)
         == MapChar(seed, '.', '_') + "_" + NatToString(count) + "_" + MapChar(guidance, '.', '_')
    ensures '.' !in FileStem(seed, count, guidance)
  {
    var digits := NatToString(count);
    var s := seed + "_" + digits + "_" + guidance;
    ReplaceCharIsMap(s, '.', '_');
    MapCharConcat(seed + "_" + digits + "_", guidance, '.', '_');
    MapCharConcat(seed + "_" + digits, "_", '.', '_');
    MapCharConcat(seed + "_", digits, '.', '_');
    MapCharConcat(seed, "_", '.', '_');
    assert MapChar(digits, '.', '_') == digits;
    MapCharRemoves(s, '.', '_');
  }

  /** POSIX `os.path.join(a, b)`: an absolute `b` replaces `a`; otherwise a
      separator is inserted unless `a` is empty or already ends with one. */
  function PathJoin(a: string, b: string): string
  {
    if |b| > 0 && b[0] == '/' then b
    else if |a| == 0 || a[|a| - 1] == '/' then a + b
    else a + "/" + b
  }

  /** The folder for a pair of recorded prompts, under `root`. */
  function Folder(root: string, prompt: Option<string>, negativePrompt: Option<string>): string
  {
    var cut := Truncate(Normalise(OrEmpty(prompt)), Normalise(OrEmpty(negativePrompt)));
    PathJoin(root, FolderName(cut.0, cut.1))
  }

  /** `generate_image_path()` without the extension. */
  function ImagePath(root: string, prompt: Option<string>, negativePrompt: Option<string>,
                     seed: Option<string>, count: nat, guidance: Option<string>): string
  {
    PathJoin(Folder(root, prompt, negativePrompt), FileStem(Render(seed), count, Render(guidance)))
  }

  /** The separator `os.path.join` puts after `root`. */
  function Separator(root: string): string
  {
    if |root| == 0 || root[|root| - 1] == '/' then "" else "/"
  }

  /** Whatever `a` is, the joined path ends with `b`. */
  lemma PathJoinEndsWith(a: string, b: string)
    ensures var r := PathJoin(a, b);
            |b| <= |r| && r[|r| - |b|..] == b
  {
    var r := PathJoin(a, b);
    if !(|b| > 0 && b[0] == '/') {
      if |a| == 0 || a[|a| - 1] == '/' {
        assert r == a + b;
      } else {
        assert r == (a + "/") + b;
      }
    }
  }

  /** Joining a relative component appends it after the separator. */
  lemma PathJoinRelative(a: string, b: string)
    requires |b| > 0 && b[0] != '/'
    ensures PathJoin(a, b) == a + Separator(a) + b
  {
  }

  /** A prefix of text without `c` is without `c`. */
  lemma PrefixKeepsAbsent(p: string, s: string, c: char)
    requires p <= s && c !in s
    ensures c !in p
  {
    assert forall i :: 0 <= i < |p| ==> p[i] == s[i];
  }

  /** Built from prompts without separators or spaces, the folder name has no
      separator, space or comma, and is one character longer than the two. */
  lemma FolderNameSafe(p: string, n: string)
    requires '/' !in p && ' ' !in p && '/' !in n && ' ' !in n
    ensures var name := FolderName(p, n);
            && |name| == |p| + |n| + 1
            && '/' !in name && ' ' !in name && ',' !in name
  {
    FolderNameShape(p, n);
    assert '/' !in MapChar(p, ',', '_') && ' ' !in MapChar(p, ',', '_');
    assert '/' !in MapChar(n, ',', '_') && ' ' !in MapChar(n, ',', '_');
  }

  /** The folder name is built from prefixes of the normalised prompts, has
      no separator, space or comma, and is at most 51 characters long. */
  lemma FolderNameLayout(prompt: Option<string>, negativePrompt: Option<string>)
    ensures var cut := Truncate(Normalise(OrEmpty(prompt)), Normalise(OrEmpty(negativePrompt)));
            var name := FolderName(cut.0, cut.1);
            && 0 < |name| <= Budget + 1
            && '/' !in name && ' ' !in name && ',' !in name
  {
    var pn := Normalise(OrEmpty(prompt));
    var nn := Normalise(OrEmpty(negativePrompt));
    NormaliseSafe(OrEmpty(prompt));
    NormaliseSafe(OrEmpty(negativePrompt));
    var cut := Truncate(pn, nn);
    if |pn| + |nn| > Budget {
      TruncateFillsBudget(pn, nn);
    }
    PrefixKeepsAbsent(cut.0, pn, '/');
    PrefixKeepsAbsent(cut.0, pn, ' ');
    PrefixKeepsAbsent(cut.1, nn, '/');
    PrefixKeepsAbsent(cut.1, nn, ' ');
    FolderNameSafe(cut.0, cut.1);
  }

  /** The folder is the folder name directly under `root`: joining never
      discards `root`. */
  lemma FolderLayout(root: string, prompt: Option<string>, negativePrompt: Option<string>)
    ensures var cut := Truncate(Normalise(OrEmpty(prompt)), Normalise(OrEmpty(negativePrompt)));
            Folder(root, prompt, negativePrompt) == root + Separator(root) + FolderName(cut.0, cut.1)
  {
    var cut := Truncate(Normalise(OrEmpty(prompt)), Normalise(OrEmpty(negativePrompt)));
    var name := FolderName(cut.0, cut.1);
    FolderNameLayout(prompt, negativePrompt);
    assert name[0] in name;
    PathJoinRelative(root, name);
  }

  /** The image path is the folder, a separator and the stem whenever the
      rendered seed does not start with a separator; the stem carries the
      frame count. */
  lemma ImagePathLayout(root: string, prompt: Option<string>, negativePrompt: Option<string>,
                        seed: Option<string>, count: nat, guidance: Option<string>)
    requires Render(seed) == "" || Render(seed)[0] != '/'
    ensures ImagePath(root, prompt, negativePrompt, seed, count, guidance)
         == Folder(root, prompt, negativePrompt) + "/" + FileStem(Render(seed), count, Render(guidance))
  {
    FolderLayout(root, prompt, negativePrompt);
    FolderNameLayout(prompt, negativePrompt);
    var cut := Truncate(Normalise(OrEmpty(prompt)), Normalise(OrEmpty(negativePrompt)));
    var name := FolderName(cut.0, cut.1);
    assert name[|name| - 1] in name;
    var stem := FileStem(Render(seed), count, Render(guidance));
    FileStemShape(Render(seed), count, Render(guidance));
    assert stem[0] != '/';
  }

  /** With an empty negative prompt the folder name is the prompt followed
      by a trailing underscore: "a cat" with no negative prompt goes to the
      folder "a_cat_". */
  lemma EmptyNegativePromptFolder(p: string)
    ensures FolderName(p, "") == MapChar(p, ',', '_') + "_"
  {
    FolderNameShape(p, "");
    assert MapChar("", ',', '_') == "";
  }
}
