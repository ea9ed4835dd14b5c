/** Generated files are named `prefix + key + suffix`, one per key of a
    table of contents: `<source>.nginx` for virtual hosts,
    `web-distributor.<namespace>.conf` for certificate requests. This module
    holds what both naming schemes share: the names tell the keys apart, so
    a table of contents becomes a directory table with exactly one file per
    key. */
module FileNames {
  import opened FileTable

  function FileName(prefix: string, suffix: string, key: string): string {
    prefix + key + suffix
  }

  /** The key a generated file name stands for. */
  function KeyOf(prefix: string, suffix: string, name: string): string
    requires |name| >= |prefix| + |suffix|
  {
    name[|prefix|..|name| - |suffix|]
  }

  lemma KeyOfFileName(prefix: string, suffix: string, key: string)
    ensures |FileName(prefix, suffix, key)| >= |prefix| + |suffix|
    ensures KeyOf(prefix, suffix, FileName(prefix, suffix, key)) == key
  {
    var n := FileName(prefix, suffix, key);
    assert n[|prefix|..|n| - |suffix|] == key;
  }

  /** Different keys give different file names. */
  lemma FileNameInjective(prefix: string, suffix: string, a: string, b: string)
    ensures FileName(prefix, suffix, a) == FileName(prefix, suffix, b) <==> a == b
  {
    KeyOfFileName(prefix, suffix, a);
    KeyOfFileName(prefix, suffix, b);
  }

  /** The table giving each key of `keys` the content `render` makes of it. */
  function Tabulate(keys: set<string>, render: string -> string): (r: map<string, string>)
    ensures r.Keys == keys
  {
    map k | k in keys :: render(k)
  }

  lemma TabulateAdd(keys: set<string>, key: string, render: string -> string)
    ensures Tabulate(keys + {key}, render) == Tabulate(keys, render)[key := render(key)]
  {
  }

  /** The table giving each key of `keys` the content `build` makes of it
      and of the value `m` maps it to. */
  function Rendered(m: map<string, string>, keys: set<string>, build: (string, string) -> string)
    : (r: map<string, string>)
    requires keys <= m.Keys
    ensures r.Keys == keys
  {
    map k | k in keys :: build(k, m[k])
  }

  lemma RenderedAdd(m: map<string, string>, keys: set<string>, key: string, build: (string, string) -> string)
    requires keys <= m.Keys && key in m
    ensures Rendered(m, keys + {key}, build) == Rendered(m, keys, build)[key := build(key, m[key])]
  {
  }

  /** The directory table holding one file per key of `contents`, named
      after its key and holding that key's content: built by writing the
      files one at a time, in whatever order the keys are picked (by
      NamedFileOf and NamedFileKey the order does not matter). */
  ghost function NamedFiles(prefix: string, suffix: string, contents: map<string, string>): Table
    decreases contents.Keys
  {
    if contents == map[] then map[]
    else
      var k :| k in contents;
      NamedFiles(prefix, suffix, contents - {k})[FileName(prefix, suffix, k) := File(contents[k])]
  }

  lemma NamedFilesEmpty(prefix: string, suffix: string)
    ensures NamedFiles(prefix, suffix, map[]) == map[]
  {
  }

  /** Each key has its file, holding the key's content. */
  lemma {:induction false} NamedFileOf(prefix: string, suffix: string, contents: map<string, string>, key: string)
    requires key in contents
    ensures FileName(prefix, suffix, key) in NamedFiles(prefix, suffix, contents)
    ensures NamedFiles(prefix, suffix, contents)[FileName(prefix, suffix, key)] == File(contents[key])
    decreases contents.Keys
  {
    var k :| k in contents && NamedFiles(prefix, suffix, contents)
      == NamedFiles(prefix, suffix, contents - {k})[FileName(prefix, suffix, k) := File(contents[k])];
    if k != key {
      NamedFileOf(prefix, suffix, contents - {k}, key);
      FileNameInjective(prefix, suffix, k, key);
    }
  }

  /** Every file is the file of one of the keys. */
  lemma {:induction false} NamedFileKey(prefix: string, suffix: string, contents: map<string, string>, n: string)
    requires n in NamedFiles(prefix, suffix, contents)
    ensures |n| >= |prefix| + |suffix|
    ensures KeyOf(prefix, suffix, n) in contents
    ensures n == FileName(prefix, suffix, KeyOf(prefix, suffix, n))
    decreases contents.Keys
  {
    if contents == map[] {
      assert false;
    } else {
      var k :| k in contents && NamedFiles(prefix, suffix, contents)
        == NamedFiles(prefix, suffix, contents - {k})[FileName(prefix, suffix, k) := File(contents[k])];
      if n == FileName(prefix, suffix, k) {
        KeyOfFileName(prefix, suffix, k);
      } else {
        NamedFileKey(prefix, suffix, contents - {k}, n);
      }
    }
  }

  lemma AddedFile(prefix: string, suffix: string, contents: map<string, string>,
                  key: string, content: string, n: string)
    requires n in NamedFiles(prefix, suffix, contents[key := content])
    ensures var r := NamedFiles(prefix, suffix, contents)[FileName(prefix, suffix, key) := File(content)];
            n in r && NamedFiles(prefix, suffix, contents[key := content])[n] == r[n]
  {
    var c := contents[key := content];
    NamedFileKey(prefix, suffix, c, n);
    var k := KeyOf(prefix, suffix, n);
    NamedFileOf(prefix, suffix, c, k);
    if k != key {
      FileNameInjective(prefix, suffix, k, key);
      NamedFileOf(prefix, suffix, contents, k);
    }
  }

  lemma KeptFile(prefix: string, suffix: string, contents: map<string, string>,
                 key: string, content: string, n: string)
    requires n in NamedFiles(prefix, suffix, contents)
    ensures n in NamedFiles(prefix, suffix, contents[key := content])
  {
    NamedFileKey(prefix, suffix, contents, n);
    var k := KeyOf(prefix, suffix, n);
    NamedFileOf(prefix, suffix, contents[key := content], k);
  }

  /** Adding a key to the contents adds exactly its file. */
  lemma NamedFilesAdd(prefix: string, suffix: string, contents: map<string, string>,
                                         key: string, content: string)
    ensures NamedFiles(prefix, suffix, contents[key := content])
            == NamedFiles(prefix, suffix, contents)[FileName(prefix, suffix, key) := File(content)]
  {
    var l := NamedFiles(prefix, suffix, contents[key := content]);
    var r := NamedFiles(prefix, suffix, contents)[FileName(prefix, suffix, key) := File(content)];
    AddedFiles(prefix, suffix, contents, key, content, l, r);
    KeptFiles(prefix, suffix, contents, key, content, l, r);
    TablesEqual(l, r);
  }

  lemma AddedFiles(prefix: string, suffix: string, contents: map<string, string>,
                   key: string, content: string, l: Table, r: Table)
    requires l == NamedFiles(prefix, suffix, contents[key := content])
    requires r == NamedFiles(prefix, suffix, contents)[FileName(prefix, suffix, key) := File(content)]
    ensures forall n | n in l :: n in r && l[n] == r[n]
  {
    forall n | n in l ensures n in r && l[n] == r[n] {
      AddedFile(prefix, suffix, contents, key, content, n);
    }
  }

  lemma KeptFiles(prefix: string, suffix: string, contents: map<string, string>,
                  key: string, content: string, l: Table, r: Table)
    requires l == NamedFiles(prefix, suffix, contents[key := content])
    requires r == NamedFiles(prefix, suffix, contents)[FileName(prefix, suffix, key) := File(content)]
    ensures forall n | n in r :: n in l
  {
    forall n | n in r ensures n in l {
      if n != FileName(prefix, suffix, key) {
        KeptFile(prefix, suffix, contents, key, content, n);
      } else {
        NamedFileOf(prefix, suffix, contents[key := content], key);
      }
    }
  }

  lemma TablesEqual(l: Table, r: Table)
    requires forall n | n in l :: n in r && l[n] == r[n]
    requires forall n | n in r :: n in l
    ensures l == r
  {
    assert l.Keys == r.Keys;
  }

  /** There are exactly as many files as keys. */
  lemma {:induction false} NamedFilesSize(prefix: string, suffix: string, contents: map<string, string>)
    ensures |NamedFiles(prefix, suffix, contents)| == |contents|
    decreases contents.Keys
  {
    if contents != map[] {
      var k :| k in contents && NamedFiles(prefix, suffix, contents)
        == NamedFiles(prefix, suffix, contents - {k})[FileName(prefix, suffix, k) := File(contents[k])];
      var rest := contents - {k};
      NamedFilesSize(prefix, suffix, rest);
      var n := FileName(prefix, suffix, k);
      if n in NamedFiles(prefix, suffix, rest) {
        NamedFileKey(prefix, suffix, rest, n);
        KeyOfFileName(prefix, suffix, k);
        assert false;
      }
      assert |contents| == |rest| + 1 by {
        assert contents.Keys == rest.Keys + {k};
      }
    }
  }
}
