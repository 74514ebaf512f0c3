/**
  The `LocpelToSQL` generator: an append-only buffer of SQL lines that the
  constructor opens with a preamble and `BEGIN;`, that each `process*` method
  extends with one section, and that `processAll` closes with `COMMIT;`.
 */
module GenerateInserts {
  import opened Wrappers
  import opened JsStrings
  import opened SeqUtils
  import opened ImportCells
  import opened SheetLookup
  import opened InsertSections

  /** The user id every record is attributed to when none is given. */
  const DefaultUsuarioId := "00000000-0000-0000-0000-000000000000"

  /** The service records `processServicos` reads: none when the sheet is missing. */
  function ServicoData(wb: Workbook, env: Builtins): seq<Servico> {
    match FindSheet(wb.sheetNames, ServicoSheetNames)
    case None => []
    case Some(name) => ServicoRecords(SheetRows(wb, name), env)
  }

  /** The buffer after the five sections and the closing lines, as one append. */
  lemma ClosingLines(o: seq<string>, e: seq<string>, f: seq<string>, t: seq<string>, sv: seq<string>, h: seq<string>)
    ensures o + e + f + t + sv + h + [""] + ["COMMIT;"] == o + (e + f + t + sv + h) + ["", "COMMIT;"]
  {
  }

  class LocpelToSQL {
    const workbook: Workbook
    const usuarioId: string
    /** The number and serial-date conversions of the JavaScript runtime. */
    const env: Builtins
    var sqlOutput: seq<string>

    /** Opens the buffer; `generatedAt` is the ISO time of generation the script reads from the clock. */
    constructor (workbook: Workbook, usuarioId: string, generatedAt: string, env: Builtins)
      ensures this.workbook == workbook && this.usuarioId == usuarioId && this.env == env
      ensures sqlOutput == Preamble(generatedAt)
    {
      this.workbook := workbook;
      this.usuarioId := usuarioId;
      this.env := env;
      sqlOutput := [];
      sqlOutput := sqlOutput + [ScriptOrigin];
      sqlOutput := sqlOutput + ["-- Data: " + generatedAt];
      sqlOutput := sqlOutput + [""];
      sqlOutput := sqlOutput + ["BEGIN;"];
      sqlOutput := sqlOutput + [""];
    }

    /** Every section in order, then a blank line and `COMMIT;`. */
    method ProcessAll()
      modifies this
      ensures sqlOutput == old(sqlOutput) + Sections(workbook, usuarioId, env) + ["", "COMMIT;"]
    {
      ProcessEquipamentos();
      ProcessFornecedores();
      ProcessTiposServico();
      var validos, ignorados := ProcessServicos();
      var total := ProcessHorimetros();
      sqlOutput := sqlOutput + [""];
      sqlOutput := sqlOutput + ["COMMIT;"];
      var e, f, t := EquipamentosSection(workbook, env), FornecedoresSection(workbook, env), TiposServicoSection(workbook, env);
      var sv, h := ServicosSection(workbook, usuarioId, env), HorimetrosSection(workbook, usuarioId, env);
      ClosingLines(old(sqlOutput), e, f, t, sv, h);
    }

    method ProcessEquipamentos()
      modifies this
      ensures sqlOutput == old(sqlOutput) + EquipamentosSection(workbook, env)
    {
      var sheetName := FindSheet(workbook.sheetNames, EquipamentoSheetNames);
      if sheetName.None? {
        return;
      }
      var data := EquipamentoRecords(SheetRows(workbook, sheetName.value), env);
      var header := SectionHeader("EQUIPAMENTOS");
      sqlOutput := sqlOutput + header + [""];
      var unique := DeduplicateEquipamentos(data);
      AppendEquipamentos(unique);
      sqlOutput := sqlOutput + [""];
      var lines := ConcatMap(unique, EquipamentoInsert);
      AppendFour(old(sqlOutput), header, [""], lines, [""]);
    }

    /** The `forEach` of `processEquipamentos`: an insert for each equipment with a code and a description. */
    method AppendEquipamentos(unique: seq<Equipamento>)
      modifies this
      ensures sqlOutput == old(sqlOutput) + ConcatMap(unique, EquipamentoInsert)
    {
      for i := 0 to |unique|
        invariant sqlOutput == old(sqlOutput) + ConcatMap(unique[..i], EquipamentoInsert)
      {
        var eq := unique[i];
        var codigo := if eq.identificacao != "" then eq.identificacao else eq.equipamento;
        var descricao := if eq.equipamento != "" then eq.equipamento else eq.identificacao;
        var before := sqlOutput;
        if codigo != "" && descricao != "" {
          sqlOutput := sqlOutput + [EquipamentoLine(codigo, descricao)];
        }
        assert sqlOutput == before + EquipamentoInsert(eq);
        ConcatMapPush(old(sqlOutput), unique, EquipamentoInsert, i, before, sqlOutput);
      }
      assert unique[..|unique|] == unique;
    }

    /** The equipment list with every key after its first occurrence dropped, tracked in a `seen` set. */
    method DeduplicateEquipamentos(equipamentos: seq<Equipamento>) returns (unique: seq<Equipamento>)
      ensures unique == FirstByKey(equipamentos, EquipamentoKey, {})
    {
      var seen: set<string> := {};
      unique := [];
      for i := 0 to |equipamentos|
        invariant unique + FirstByKey(equipamentos[i..], EquipamentoKey, seen)
                  == FirstByKey(equipamentos, EquipamentoKey, {})
      {
        var eq := equipamentos[i];
        var key := ToLower(if eq.identificacao != "" then eq.identificacao else eq.equipamento);
        assert equipamentos[i..][1..] == equipamentos[i + 1..];
        if key !in seen {
          seen := seen + {key};
          unique := unique + [eq];
        }
      }
      assert equipamentos[|equipamentos|..] == [];
    }

    method ProcessFornecedores()
      modifies this
      ensures sqlOutput == old(sqlOutput) + FornecedoresSection(workbook, env)
    {
      var sheetName := FindSheet(workbook.sheetNames, FornecedorSheetNames);
      if sheetName.None? {
        return;
      }
      var data := FornecedorNames(SheetRows(workbook, sheetName.value), env);
      var header := SectionHeader("FORNECEDORES");
      sqlOutput := sqlOutput + header + [""];
      var unique := UniqueNames(data);
      AppendFornecedores(unique);
      sqlOutput := sqlOutput + [""];
      var lines := ConcatMap(unique, FornecedorInsert);
      AppendFour(old(sqlOutput), header, [""], lines, [""]);
    }

    /** The `forEach` of `processFornecedores`: one insert per distinct supplier name. */
    method AppendFornecedores(unique: seq<string>)
      modifies this
      ensures sqlOutput == old(sqlOutput) + ConcatMap(unique, FornecedorInsert)
    {
      for i := 0 to |unique|
        invariant sqlOutput == old(sqlOutput) + ConcatMap(unique[..i], FornecedorInsert)
      {
        sqlOutput := sqlOutput + [FornecedorLine(unique[i])];
        ConcatMapStep(unique, FornecedorInsert, i);
      }
      assert unique[..|unique|] == unique;
    }

    method ProcessTiposServico()
      modifies this
      ensures sqlOutput == old(sqlOutput) + TiposServicoSection(workbook, env)
    {
      var sheetName := FindSheet(workbook.sheetNames, TipoServicoSheetNames);
      if sheetName.None? {
        return;
      }
      var data := TipoServicoNames(SheetRows(workbook, sheetName.value), env);
      var header := SectionHeader("TIPOS DE SERVIÇO");
      sqlOutput := sqlOutput + header + [""];
      var unique := UniqueNames(data);
      AppendTiposServico(unique);
      sqlOutput := sqlOutput + [""];
      var lines := ConcatMap(unique, TipoServicoInsert);
      AppendFour(old(sqlOutput), header, [""], lines, [""]);
    }

    /** The `forEach` of `processTiposServico`: one insert per distinct service type. */
    method AppendTiposServico(unique: seq<string>)
      modifies this
      ensures sqlOutput == old(sqlOutput) + ConcatMap(unique, TipoServicoInsert)
    {
      for i := 0 to |unique|
        invariant sqlOutput == old(sqlOutput) + ConcatMap(unique[..i], TipoServicoInsert)
      {
        sqlOutput := sqlOutput + [TipoServicoLine(unique[i])];
        ConcatMapStep(unique, TipoServicoInsert, i);
      }
      assert unique[..|unique|] == unique;
    }

    /** Also returns the two counts the method logs: services written and services ignored. */
    method ProcessServicos() returns (validos: nat, ignorados: nat)
      modifies this
      ensures sqlOutput == old(sqlOutput) + ServicosSection(workbook, usuarioId, env)
      ensures validos == Count(ServicoData(workbook, env), ServicoValid)
      ensures ignorados == Count(ServicoData(workbook, env), ServicoIgnored)
    {
      validos, ignorados := 0, 0;
      var sheetName := FindSheet(workbook.sheetNames, ServicoSheetNames);
      if sheetName.None? {
        return;
      }
      var data := ServicoRecords(SheetRows(workbook, sheetName.value), env);
      var header := SectionHeader("SERVIÇOS");
      sqlOutput := sqlOutput + header + ServicoNotes;
      validos, ignorados := AppendServicos(data);
      AppendThree(old(sqlOutput), header, ServicoNotes, ConcatMap(data, ServicoInsertFn(usuarioId, env)));
    }

    /** The `forEach` of `processServicos`: each service is written or counted as ignored. */
    method AppendServicos(data: seq<Servico>) returns (validos: nat, ignorados: nat)
      modifies this
      ensures sqlOutput == old(sqlOutput) + ConcatMap(data, ServicoInsertFn(usuarioId, env))
      ensures validos == Count(data, ServicoValid) && ignorados == Count(data, ServicoIgnored)
    {
      validos, ignorados := 0, 0;
      var start := sqlOutput;
      for i := 0 to |data|
        invariant sqlOutput == start + ConcatMap(data[..i], ServicoInsertFn(usuarioId, env))
        invariant validos == Count(data[..i], ServicoValid)
        invariant validos + ignorados == i
      {
        var written := AppendServicoAt(data, i, start);
        if written {
          validos := validos + 1;
        } else {
          ignorados := ignorados + 1;
        }
        CountStep(data, ServicoValid, i);
      }
      assert data[..|data|] == data;
      ServicosWrittenOrIgnored(data, usuarioId, env);
    }

    /** Pass `i` of that `forEach`, which extends the output of the passes before it. */
    method AppendServicoAt(data: seq<Servico>, i: nat, start: seq<string>) returns (written: bool)
      requires i < |data|
      requires sqlOutput == start + ConcatMap(data[..i], ServicoInsertFn(usuarioId, env))
      modifies this
      ensures sqlOutput == start + ConcatMap(data[..i + 1], ServicoInsertFn(usuarioId, env))
      ensures written == ServicoValid(data[i])
    {
      var before := sqlOutput;
      written := WriteServico(data[i]);
      ServicoPush(start, data, i, usuarioId, env, before, sqlOutput);
    }

    /** The body of that `forEach`: the insert of a complete service, nothing for an incomplete one. */
    method WriteServico(servico: Servico) returns (written: bool)
      modifies this
      ensures sqlOutput == old(sqlOutput) + ServicoInsert(servico, usuarioId, env)
      ensures written == ServicoValid(servico)
    {
      written := servico.data.Some? && servico.data.value != "" && servico.equipamento != ""
                 && servico.custo.Some? && servico.tipoServico != "";
      if written {
        sqlOutput := sqlOutput + ServicoLines(servico, usuarioId, env);
      }
    }

    /** Also returns the number of records read from all hour-meter sheets, the total the method logs. */
    method ProcessHorimetros() returns (total: nat)
      modifies this
      ensures sqlOutput == old(sqlOutput) + HorimetrosSection(workbook, usuarioId, env)
      ensures total == HorimetroTotal(workbook, HorimetroSheets(workbook.sheetNames), env)
    {
      total := 0;
      var horimetroSheets := HorimetroSheets(workbook.sheetNames);
      if |horimetroSheets| == 0 {
        return;
      }
      var header, note := SectionHeader("HORÍMETROS"), HorimetroNote(|horimetroSheets|);
      sqlOutput := sqlOutput + header + note;
      total := AppendHorimetroSheets(horimetroSheets);
      AppendThree(old(sqlOutput), header, note, ConcatMap(horimetroSheets, HorimetroSheetLinesFn(workbook, usuarioId, env)));
    }

    /** The outer `forEach` of `processHorimetros`: the rows of every sheet, and how many were read. */
    method AppendHorimetroSheets(hs: seq<string>) returns (total: nat)
      modifies this
      ensures sqlOutput == old(sqlOutput) + ConcatMap(hs, HorimetroSheetLinesFn(workbook, usuarioId, env))
      ensures total == HorimetroTotal(workbook, hs, env)
    {
      total := 0;
      var start := sqlOutput;
      for j := 0 to |hs|
        invariant sqlOutput == start + ConcatMap(hs[..j], HorimetroSheetLinesFn(workbook, usuarioId, env))
        invariant total == HorimetroTotal(workbook, hs[..j], env)
      {
        var before := sqlOutput;
        var count := ProcessHorimetroSheet(hs[j]);
        HorimetroSheetPush(start, hs, j, workbook, usuarioId, env, before, sqlOutput);
        HorimetroTotalStep(workbook, hs, j, env);
        total := total + count;
      }
      assert hs[..|hs|] == hs;
    }

    /** One pass of the outer `forEach` of `processHorimetros`: the rows of one sheet, and their number. */
    method ProcessHorimetroSheet(sheetName: string) returns (count: nat)
      modifies this
      ensures sqlOutput == old(sqlOutput) + HorimetroSheetLines(workbook, sheetName, usuarioId, env)
      ensures count == |HorimetroRecords(workbook, sheetName, env)|
    {
      var data := HorimetroRecords(workbook, sheetName, env);
      count := |data|;
      var start := sqlOutput;
      for i := 0 to |data|
        invariant sqlOutput == start + ConcatMap(data[..i], HorimetroInsertFn(usuarioId, env))
      {
        AppendHorimetroAt(data, i, start);
      }
      assert data[..|data|] == data;
    }

    /** Pass `i` of the inner `forEach`, which extends the output of the passes before it. */
    method AppendHorimetroAt(data: seq<Horimetro>, i: nat, start: seq<string>)
      requires i < |data|
      requires sqlOutput == start + ConcatMap(data[..i], HorimetroInsertFn(usuarioId, env))
      modifies this
      ensures sqlOutput == start + ConcatMap(data[..i + 1], HorimetroInsertFn(usuarioId, env))
    {
      var before := sqlOutput;
      WriteHorimetro(data[i]);
      HorimetroPush(start, data, i, usuarioId, env, before, sqlOutput);
    }

    /** The body of the inner `forEach`: the insert of a complete reading, nothing for an incomplete one. */
    method WriteHorimetro(horimetro: Horimetro)
      modifies this
      ensures sqlOutput == old(sqlOutput) + HorimetroInsert(horimetro, usuarioId, env)
    {
      if horimetro.data.Some? && horimetro.data.value != "" && horimetro.equipamento != ""
         && horimetro.leitura.Some? {
        sqlOutput := sqlOutput + HorimetroLines(horimetro, usuarioId, env);
      }
    }
  }

  /**
    The lines `saveSQL` writes for a workbook: a generator is built and run over
    every sheet. They are the script, with `BEGIN;` as the fourth line and
    `COMMIT;` as the last, each appearing once.
   */
  method Generate(workbook: Workbook, usuarioId: string, generatedAt: string, env: Builtins)
    returns (lines: seq<string>)
    ensures lines == Script(workbook, usuarioId, generatedAt, env)
    ensures lines[3] == "BEGIN;" && lines[|lines| - 1] == "COMMIT;"
    ensures forall i :: 0 <= i < |lines| && lines[i] == "BEGIN;" ==> i == 3
    ensures forall i :: 0 <= i < |lines| && lines[i] == "COMMIT;" ==> i == |lines| - 1
  {
    var generator := new LocpelToSQL(workbook, usuarioId, generatedAt, env);
    generator.ProcessAll();
    lines := generator.sqlOutput;
    ScriptFraming(workbook, usuarioId, generatedAt, env);
  }
}
