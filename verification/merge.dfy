/** The merger: the files matching `workflow_*.json`, in directory order, each
    wrapped with its file name when it parses and skipped when it does not. */
module Merge {
  import opened Wrappers
  import opened Naming

  /** One element of the merged document; the payload is not interpreted. */
  datatype Entry<P> = Entry(filename: string, workflow: P)

  /** The glob of the download folder, keeping the directory's enumeration order. */
  function GlobWorkflowFiles(listing: seq<string>): seq<string>
  {
    Filter(listing, MatchesGlob)
  }

  /** The fold of the merge loop over `files`; `parse` is the outcome of
      reading and decoding each file. */
  function Merged<P>(files: seq<string>, parse: string -> Option<P>): seq<Entry<P>>
  {
    if files == [] then []
    else
      var f := files[|files| - 1];
      Merged(files[..|files| - 1], parse) + (match parse(f) case Some(data) => [Entry(f, data)] case None => [])
  }

  function Parses<P>(parse: string -> Option<P>): string -> bool
  {
    f => parse(f).Some?
  }

  /** The file names of `entries`, in order. */
  function Filenames<P>(entries: seq<Entry<P>>): seq<string>
  {
    seq(|entries|, i requires 0 <= i < |entries| => entries[i].filename)
  }

  /** The merged entries name exactly the files that parse, in file order. */
  lemma {:induction false} MergedFilenames<P>(files: seq<string>, parse: string -> Option<P>)
    ensures Filenames(Merged(files, parse)) == Filter(files, Parses(parse))
  {
    if files != [] {
      var init := files[..|files| - 1];
      MergedFilenames(init, parse);
      var m := Merged(files, parse);
      var mi := Merged(init, parse);
      assert Filenames(m) == Filenames(mi) + Filenames(m[|mi|..]);
    }
  }

  /** Each entry carries a file that was listed and its parsed payload; each
      listed file that parses has its entry. */
  lemma {:induction false} MergedEntries<P>(files: seq<string>, parse: string -> Option<P>)
    ensures forall e | e in Merged(files, parse) :: e.filename in files && parse(e.filename) == Some(e.workflow)
    ensures forall f | f in files && parse(f).Some? :: Entry(f, parse(f).value) in Merged(files, parse)
  {
    if files != [] {
      var init := files[..|files| - 1];
      MergedEntries(init, parse);
      assert files == init + [files[|files| - 1]];
    }
  }

  /** Merging is a left fold: the entries of `a` come before those of `b`. */
  lemma {:induction false} MergedAppend<P>(a: seq<string>, b: seq<string>, parse: string -> Option<P>)
    ensures Merged(a + b, parse) == Merged(a, parse) + Merged(b, parse)
  {
    if b == [] {
      assert a + b == a;
    } else {
      var init := b[..|b| - 1];
      MergedAppend(a, init, parse);
      assert (a + b)[..|a + b| - 1] == a + init;
    }
  }

  /** Distinct files give entries with distinct file names: one entry per parsed file. */
  lemma MergedOneToOne<P>(files: seq<string>, parse: string -> Option<P>)
    requires Distinct(files)
    ensures Distinct(Filenames(Merged(files, parse)))
  {
    MergedFilenames(files, parse);
    FilterDistinct(files, Parses(parse));
  }

  /** A good file and a corrupt one give a document of exactly one entry, for the good file. */
  lemma MergeSkipsCorrupt<P>(parse: string -> Option<P>, payload: P)
    requires parse("workflow_1.json") == Some(payload) && parse("workflow_2.json") == None
    ensures Merged(["workflow_1.json", "workflow_2.json"], parse) == [Entry("workflow_1.json", payload)]
  {
  }

  /** A file renamed by the downloader and still in the folder is among the merged candidates. */
  lemma RenamedFileIsGlobbed(listing: seq<string>, index: nat, existing: set<string>, timestamp: nat)
    requires RenameTarget(index, existing, timestamp) in listing
    ensures RenameTarget(index, existing, timestamp) in GlobWorkflowFiles(listing)
  {
    RenameTargetMatchesGlob(index, existing, timestamp);
    FilterMembers(listing, MatchesGlob);
  }
}
