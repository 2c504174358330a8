/** An artifact from the source lines and back: the collector redacts one source after the
    other with one growing table, collects, seals and uploads; a load gives the redacted lines,
    and the mapping in the collector's local copy leads from them to the source lines. */
module EndToEnd {
  import opened Base
  import Blobs
  import Collect
  import Load
  import R = Redaction
  import E = RedactEngine

  /** A source as it was read. */
  datatype Raw = Raw(name: string, kind: Collect.Kind, target: string, lines: seq<string>)

  /** The rules of the redaction engine, and the bytes of a line. */
  datatype Config = Config(env: R.Env, rules: seq<R.Rule>, utf8: string -> Bytes)

  ghost predicate RulesOk(c: Config) { forall i :: 0 <= i < |c.rules| ==> R.RuleOk(c.rules[i]) }

  /** The placeholder table after redacting the sources in order. */
  function TableAfter(c: Config, sources: seq<Raw>): R.Table {
    if sources == [] then map[]
    else R.RedactFrom(c.env, c.rules, TableAfter(c, sources[..|sources| - 1]), sources[|sources| - 1].lines, 0).table
  }

  /** The k-th source after redaction, piece by piece. */
  function Pieces(c: Config, sources: seq<Raw>, k: nat): seq<seq<R.Piece>>
    requires k < |sources|
  {
    R.RedactFrom(c.env, c.rules, TableAfter(c, sources[..k]), sources[k].lines, 0).out
  }

  function Encoded(c: Config, lines: seq<string>): (r: seq<Bytes>)
    ensures |r| == |lines| && forall i :: 0 <= i < |lines| ==> r[i] == c.utf8(lines[i])
  {
    seq(|lines|, i requires 0 <= i < |lines| => c.utf8(lines[i]))
  }

  function InputOf(c: Config, sources: seq<Raw>, k: nat): Collect.Input
    requires k < |sources|
  {
    Collect.Input(sources[k].name, sources[k].kind, sources[k].target,
                  Encoded(c, E.RenderAll(Pieces(c, sources, k))), TableAfter(c, sources[..k + 1]).Keys)
  }

  function Inputs(c: Config, sources: seq<Raw>): (r: seq<Collect.Input>)
    ensures |r| == |sources| && forall k :: 0 <= k < |sources| ==> r[k] == InputOf(c, sources, k)
  {
    seq(|sources|, k requires 0 <= k < |sources| => InputOf(c, sources, k))
  }

  lemma TableStep(c: Config, sources: seq<Raw>, k: nat)
    requires k < |sources|
    ensures TableAfter(c, sources[..k + 1]) == R.RedactFrom(c.env, c.rules, TableAfter(c, sources[..k]), sources[k].lines, 0).table
  {
    hide R.RedactFrom;
    Collect.Front(sources, k);
  }

  /** Redacts the sources in order with one engine. */
  method Gather(engine: E.Engine, c: Config, sources: seq<Raw>) returns (inputs: seq<Collect.Input>)
    requires engine.Valid() && engine.values == map[] && engine.rules == c.rules && engine.env == c.env
    modifies engine`values
    ensures engine.Valid() && engine.values == TableAfter(c, sources) && inputs == Inputs(c, sources)
  {
    hide R.RedactFrom, R.TableOk, R.RuleOk, R.Grows, E.RenderAll, TableAfter;
    inputs := [];
    NoTable(c);
    for k := 0 to |sources|
      invariant engine.Valid() && engine.values == TableAfter(c, sources[..k])
      invariant |inputs| == k && forall j :: 0 <= j < k ==> inputs[j] == InputOf(c, sources, j)
    {
      TableStep(c, sources, k);
      var r := engine.Redact(sources[k].lines);
      inputs := inputs + [Collect.Input(sources[k].name, sources[k].kind, sources[k].target, Encoded(c, r.lines), engine.values.Keys)];
    }
    assert sources[..|sources|] == sources;
    assert inputs == Inputs(c, sources);
  }

  lemma NoTable(c: Config)
    ensures TableAfter(c, []) == map[]
  {
  }

  /** The table stays in order and only grows from source to source. */
  lemma {:induction false} TableGrows(c: Config, sources: seq<Raw>, k: nat)
    requires RulesOk(c) && k <= |sources|
    ensures R.TableOk(TableAfter(c, sources[..k])) && R.TableOk(TableAfter(c, sources))
    ensures R.Grows(TableAfter(c, sources[..k]), TableAfter(c, sources))
    decreases |sources|
  {
    hide R.TableOk, R.Grows, R.RuleOk, R.RedactFrom;
    if sources == [] {
      EmptyTable();
      assert sources[..k] == [];
    } else {
      var n := |sources| - 1;
      var front, last := sources[..n], sources[n];
      if k == |sources| {
        TableGrows(c, front, n);
        assert sources[..k] == sources && front[..n] == front;
      } else {
        TableGrows(c, front, k);
        assert front[..k] == sources[..k];
      }
      R.PlaceholdersStable(c.env, c.rules, TableAfter(c, front), last.lines, "", "");
      E.GrowsSame(TableAfter(c, sources));
      if k < |sources| {
        R.GrowsTransitive(TableAfter(c, sources[..k]), TableAfter(c, front), TableAfter(c, sources));
      }
    }
  }

  lemma EmptyTable()
    ensures R.TableOk(map[]) && R.Grows(map[], map[])
  {
  }

  /** The final mapping expands every source's pieces to its source lines. */
  lemma MappingExpands(c: Config, sources: seq<Raw>, k: nat)
    requires RulesOk(c) && k < |sources|
    ensures R.TableOk(TableAfter(c, sources))
    ensures R.Join(R.ExpandAll(Pieces(c, sources, k), R.MappingOf(TableAfter(c, sources)))) == R.Join(sources[k].lines)
  {
    hide R.TableOk, R.Grows, R.RuleOk, R.RedactFrom, R.MappingOf, R.ExpandAll, R.Join;
    TableGrows(c, sources, k);
    TableGrows(c, sources, k + 1);
    TableStep(c, sources, k);
    R.RedactionInvertible(c.env, c.rules, TableAfter(c, sources[..k]), sources[k].lines, TableAfter(c, sources));
  }

  /** For any relay, any answers and any interleaving: what a successful load returns are the
      redacted lines of every source, and the collector's mapping leads back from them to the
      lines that were read. */
  lemma LoadedExpands(c: Config, sources: seq<Raw>, j: Collect.Job, env: Load.Env, info: Load.InfoReply, reply: Load.Reply,
                      steps: seq<Load.Step>, repair: Bytes -> Bytes)
    requires RulesOk(c) && Load.UploadOf(j, Inputs(c, sources)) && Collect.Categories(Inputs(c, sources)) <= Blobs.CATEGORIES
    requires Collect.JobOk(j) && env.log <= Collect.SealedLog(j)
    requires env.unmarshal(j.marshal(Collect.Final(j))) == Some(Collect.Final(j))
    ensures R.TableOk(TableAfter(c, sources))
    ensures var r := Load.Run(env, info, reply, steps, repair);
            r.Loaded? ==>
              && |r.sources| == |sources|
              && forall k :: 0 <= k < |sources| ==>
                   && r.sources[k].lines == Load.Repaired(Encoded(c, E.RenderAll(Pieces(c, sources, k))), repair)
                   && R.Join(R.ExpandAll(Pieces(c, sources, k), R.MappingOf(TableAfter(c, sources)))) == R.Join(sources[k].lines)
  {
    hide R.TableOk, R.RuleOk, R.RedactFrom, R.MappingOf, R.ExpandAll, R.Join, Load.Run, Load.UploadOf, Collect.Categories, Collect.SealedLog, TableAfter, Pieces, Load.Clean;
    TableGrows(c, sources, 0);
    Load.LoadIsExact(j, Inputs(c, sources), env, info, reply, steps, repair);
    forall k | 0 <= k < |sources|
      ensures R.Join(R.ExpandAll(Pieces(c, sources, k), R.MappingOf(TableAfter(c, sources)))) == R.Join(sources[k].lines)
    {
      MappingExpands(c, sources, k);
    }
  }
}
