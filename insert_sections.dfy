/**
  The text the import script appends to its SQL buffer, sheet by sheet, as
  functions of the workbook: the records each `process*` method reads from the
  rows, the INSERT statements it writes for them, and the whole script framed
  by `BEGIN;` and `COMMIT;`.
 */
module InsertSections {
  import opened Wrappers
  import opened JsStrings
  import opened SeqUtils
  import opened SqlQuoting
  import opened ImportCells
  import opened ImportNumbers
  import opened ImportDates
  import opened SheetLookup

  /** A workbook: its sheet names in order and the rows `sheet_to_json` yields for each sheet. */
  datatype Workbook = Workbook(sheetNames: seq<string>, sheets: map<string, seq<Row>>)

  /** `sheet_to_json(workbook.Sheets[name], { header: 1, defval: '' })`. */
  function SheetRows(wb: Workbook, name: string): seq<Row> {
    if name in wb.sheets then wb.sheets[name] else []
  }

  /** `rows.slice(k)`: empty when there are fewer than `k` rows. */
  function Skip(rows: seq<Row>, k: nat): seq<Row> {
    if k <= |rows| then rows[k..] else []
  }

  /**
    The openings of the lines a section writes: a comment, an INSERT, an
    indented continuation and a WHERE clause (a `SELECT` line is just `SELECT`).
   */
  const Comment := "-- "
  const InsertInto := "INSERT INTO "
  const Indent := "  "
  const Where := "WHERE "

  /**
    The fixed text of the statements, named once: column lists, the sub-selects
    that look ids up by name, the guards and the notes.
   */
  const Rule := "========================================"
  const ScriptOrigin := "-- Script gerado automaticamente a partir de LOCPEL.xlsx"
  const EquipamentoColumns := "equipamentos (codigo, descricao, ativo) VALUES ("
  const ActiveOnConflict := ", true) ON CONFLICT DO NOTHING;"
  const FornecedorColumns := "fornecedores (nome, tipo, ativo) VALUES ("
  const MaintenanceOnConflict := ", 'MANUTENCAO', true) ON CONFLICT DO NOTHING;"
  const TipoServicoColumns := "tipos_servico (nome, descricao, ativo) VALUES ("
  const ServicoColumns := "servicos (equipamento_id, tipo_servico_id, fornecedor_id, data_servico, descricao, custo, usuario_id)"
  const HorimetroColumns := "horimetros (equipamento_id, data_referencia, leitura, observacao, usuario_id)"
  const SelectEquipamento := "(SELECT id FROM equipamentos WHERE "
  const AsEquipamentoId := " LIMIT 1) as equipamento_id,"
  const SelectTipoServico := "(SELECT id FROM tipos_servico WHERE nome = "
  const AsTipoServicoId := " LIMIT 1) as tipo_servico_id,"
  const SelectFornecedor := "(SELECT id FROM fornecedores WHERE nome = "
  const AsFornecedorId := " LIMIT 1) as fornecedor_id,"
  const AsUsuarioId := "::uuid as usuario_id"
  const ExistsEquipamento := "EXISTS (SELECT 1 FROM equipamentos WHERE "
  const AndExistsTipoServico := "AND EXISTS (SELECT 1 FROM tipos_servico WHERE nome = "
  const NoteSubqueries := "NOTA: Este script usa subqueries para buscar os IDs."
  const NoteOrder := "Certifique-se de que equipamentos, fornecedores e tipos de serviço já foram inseridos."
  const NoteRequired := "IMPORTANTE: Serviços sem tipo_servico_id válido NÃO são incluídos (campo obrigatório)."

  /** An indented continuation line of a multi-line statement. */
  function Continuation(text: string): (l: string)
    ensures l != [] && l[0] == ' '
  {
    Indent + text
  }

  /** The three comment lines that open every section. */
  function SectionHeader(title: string): seq<string> {
    [Comment + Rule, Comment + title, Comment + Rule]
  }

  /** The lines the constructor writes: a provenance comment, the time of generation and `BEGIN;`. */
  function Preamble(generatedAt: string): seq<string> {
    [ScriptOrigin, "-- Data: " + generatedAt, "", "BEGIN;", ""]
  }

  // ---------------------------------------------------------------- equipamentos

  datatype Equipamento = Equipamento(
    equipamento: string, marca: string, modelo: string, identificacao: string,
    placa: string, tipo: string, operador: string)

  /** A row is kept when its first or its fourth cell is truthy. */
  predicate EquipamentoRowKept(row: Row) {
    Truthy(At(row, 0)) || Truthy(At(row, 3))
  }

  function EquipamentoOfRow(row: Row, env: Builtins): Equipamento {
    Equipamento(CleanString(At(row, 0), env), CleanString(At(row, 1), env), CleanString(At(row, 2), env),
                CleanString(At(row, 3), env), CleanString(At(row, 4), env), CleanString(At(row, 5), env),
                CleanString(At(row, 6), env))
  }

  function EquipamentoOfRowFn(env: Builtins): Row -> Equipamento {
    row => EquipamentoOfRow(row, env)
  }

  /** The records read from the equipment sheet: two header rows skipped, empty rows dropped. */
  function EquipamentoRecords(rows: seq<Row>, env: Builtins): seq<Equipamento> {
    Map(Filter(Skip(rows, 2), EquipamentoRowKept), EquipamentoOfRowFn(env))
  }

  /** `eq.identificacao || eq.equipamento`. */
  function Codigo(eq: Equipamento): string {
    if eq.identificacao != "" then eq.identificacao else eq.equipamento
  }

  /** `eq.equipamento || eq.identificacao`. */
  function Descricao(eq: Equipamento): string {
    if eq.equipamento != "" then eq.equipamento else eq.identificacao
  }

  /** The key the equipment list is deduplicated on. */
  function EquipamentoKey(eq: Equipamento): string {
    ToLower(Codigo(eq))
  }

  function EquipamentoLine(codigo: string, descricao: string): string {
    InsertInto + EquipamentoColumns + SqlString(codigo) + ", "
      + SqlString(descricao) + ActiveOnConflict
  }

  /** The statement written for one deduplicated equipment, when it has a code and a description. */
  function EquipamentoInsert(eq: Equipamento): seq<string> {
    if Codigo(eq) != "" && Descricao(eq) != "" then [EquipamentoLine(Codigo(eq), Descricao(eq))] else []
  }

  /**
    An equipment gets a statement exactly when it has an identification or a
    name; the code prefers the identification and the description the name,
    each falling back on the other.
   */
  lemma EquipamentoInsertCases(eq: Equipamento)
    ensures |EquipamentoInsert(eq)| == if eq.identificacao != "" || eq.equipamento != "" then 1 else 0
    ensures eq.identificacao != "" && eq.equipamento != "" ==>
              EquipamentoInsert(eq) == [EquipamentoLine(eq.identificacao, eq.equipamento)]
    ensures eq.identificacao != "" && eq.equipamento == "" ==>
              EquipamentoInsert(eq) == [EquipamentoLine(eq.identificacao, eq.identificacao)]
    ensures eq.identificacao == "" && eq.equipamento != "" ==>
              EquipamentoInsert(eq) == [EquipamentoLine(eq.equipamento, eq.equipamento)]
  {
  }

  /** The names of the candidate sheets, in the order they are tried. */
  const EquipamentoSheetNames: seq<string> := ["Equipamentos", "Equipamento"]
  const FornecedorSheetNames: seq<string> := ["Fornecedor", "Fornecedores"]
  const TipoServicoSheetNames: seq<string> := ["Tipos de Serviço", "Tipos de Servico", "TiposServico"]
  const ServicoSheetNames: seq<string> := ["Lançamentos Serviços", "Lancamentos Servicos", "Servicos"]

  /** What `processEquipamentos` writes for the rows of the sheet it found. */
  function EquipamentosLines(rows: seq<Row>, env: Builtins): seq<string> {
    SectionHeader("EQUIPAMENTOS") + [""]
      + ConcatMap(FirstByKey(EquipamentoRecords(rows, env), EquipamentoKey, {}), EquipamentoInsert)
      + [""]
  }

  /** `processEquipamentos`: nothing when the sheet is missing. */
  function EquipamentosSection(wb: Workbook, env: Builtins): seq<string> {
    match FindSheet(wb.sheetNames, EquipamentoSheetNames)
    case None => []
    case Some(name) => EquipamentosLines(SheetRows(wb, name), env)
  }

  /** The inserted equipment codes differ pairwise even ignoring case. */
  lemma EquipamentoCodesDistinct(eqs: seq<Equipamento>)
    ensures forall i, j :: 0 <= i < j < |FirstByKey(eqs, EquipamentoKey, {})| ==>
              ToLower(Codigo(FirstByKey(eqs, EquipamentoKey, {})[i]))
              != ToLower(Codigo(FirstByKey(eqs, EquipamentoKey, {})[j]))
  {
    FirstByKeyDistinct(eqs, EquipamentoKey, {});
  }

  // ---------------------------------------------------------------- fornecedores and tipos de serviço

  /** The first cell of a row is truthy. */
  predicate FirstCellTruthy(row: Row) {
    Truthy(At(row, 0))
  }

  function FirstCellClean(row: Row, env: Builtins): string {
    CleanString(At(row, 0), env)
  }

  function FirstCellCleanFn(env: Builtins): Row -> string {
    row => FirstCellClean(row, env)
  }

  function Identity(s: string): string {
    s
  }

  predicate NotEmpty(s: string) {
    s != ""
  }

  /** `[...new Set(names)].filter(Boolean)`: the distinct non-empty names, first occurrences in order. */
  function UniqueNames(names: seq<string>): (r: seq<string>)
    ensures forall i :: 0 <= i < |r| ==> r[i] != "" && r[i] in names
    ensures forall i, j :: 0 <= i < j < |r| ==> r[i] != r[j]
    ensures forall n :: n in names && n != "" ==> n in r
    ensures IsSubsequence(r, names)
  {
    var distinct := FirstByKey(names, Identity, {});
    FirstByKeyDistinct(names, Identity, {});
    FirstByKeyIsSubsequence(names, Identity, {});
    SubsequenceMembers(distinct, names);
    FilterSubsequence(distinct, NotEmpty);
    SubsequenceMembers(Filter(distinct, NotEmpty), distinct);
    SubsequenceDistinct(Filter(distinct, NotEmpty), distinct);
    SubsequenceTransitive(Filter(distinct, NotEmpty), distinct, names);
    assert forall n :: n in names && n != "" ==> n in Filter(distinct, NotEmpty) by {
      forall n | n in names && n != "" ensures n in Filter(distinct, NotEmpty) {
        var j := FirstOfKeyExists(names, Identity, n);
        FirstByKeyKeepsFirstOccurrences(names, Identity, {});
        FilterMembers(distinct, NotEmpty, n);
      }
    }
    Filter(distinct, NotEmpty)
  }

  function FornecedorLine(nome: string): string {
    InsertInto + FornecedorColumns + SqlString(nome) + MaintenanceOnConflict
  }

  function FornecedorInsert(nome: string): seq<string> {
    [FornecedorLine(nome)]
  }

  /** The supplier names read from the supplier sheet: one header row skipped, empty rows dropped. */
  function FornecedorNames(rows: seq<Row>, env: Builtins): seq<string> {
    Map(Filter(Skip(rows, 1), FirstCellTruthy), FirstCellCleanFn(env))
  }

  /** What `processFornecedores` writes for the rows of the sheet it found. */
  function FornecedoresLines(rows: seq<Row>, env: Builtins): seq<string> {
    SectionHeader("FORNECEDORES") + [""]
      + ConcatMap(UniqueNames(FornecedorNames(rows, env)), FornecedorInsert)
      + [""]
  }

  /** `processFornecedores`: nothing when the sheet is missing. */
  function FornecedoresSection(wb: Workbook, env: Builtins): seq<string> {
    match FindSheet(wb.sheetNames, FornecedorSheetNames)
    case None => []
    case Some(name) => FornecedoresLines(SheetRows(wb, name), env)
  }

  function TipoServicoLine(nome: string): string {
    InsertInto + TipoServicoColumns + SqlString(nome) + ", "
      + SqlString(nome) + ActiveOnConflict
  }

  function TipoServicoInsert(nome: string): seq<string> {
    [TipoServicoLine(nome)]
  }

  /** The service-type names: no header row is skipped, empty rows are dropped. */
  function TipoServicoNames(rows: seq<Row>, env: Builtins): seq<string> {
    Map(Filter(rows, FirstCellTruthy), FirstCellCleanFn(env))
  }

  /** What `processTiposServico` writes for the rows of the sheet it found. */
  function TiposServicoLines(rows: seq<Row>, env: Builtins): seq<string> {
    SectionHeader("TIPOS DE SERVIÇO") + [""]
      + ConcatMap(UniqueNames(TipoServicoNames(rows, env)), TipoServicoInsert)
      + [""]
  }

  /** `processTiposServico`: nothing when the sheet is missing. */
  function TiposServicoSection(wb: Workbook, env: Builtins): seq<string> {
    match FindSheet(wb.sheetNames, TipoServicoSheetNames)
    case None => []
    case Some(name) => TiposServicoLines(SheetRows(wb, name), env)
  }

  // ---------------------------------------------------------------- serviços

  datatype Servico = Servico(
    data: Option<string>, equipamento: string, fornecedor: string, custo: Option<real>,
    descricao: string, tipoServico: string)

  /** A row with a date other than the header text `DATA` and an equipment. */
  predicate ServicoRowKept(row: Row) {
    Truthy(At(row, 0)) && At(row, 0) != Text("DATA") && Truthy(At(row, 1))
  }

  function ServicoOfRow(row: Row, env: Builtins): Servico {
    var fornecedor := CleanString(At(row, 2), env);
    var tipo := CleanString(At(row, 4), env);
    Servico(ParseDate(At(row, 0), env), CleanString(At(row, 1), env), fornecedor,
            ParseNumber(At(row, 3)), if tipo != "" then tipo else fornecedor, tipo)
  }

  function ServicoOfRowFn(env: Builtins): Row -> Servico {
    row => ServicoOfRow(row, env)
  }

  function ServicoRecords(rows: seq<Row>, env: Builtins): seq<Servico> {
    Map(Filter(rows, ServicoRowKept), ServicoOfRowFn(env))
  }

  /** A service is written when it has a date, an equipment, a cost and a service type. */
  predicate ServicoValid(s: Servico) {
    s.data.Some? && s.data.value != "" && s.equipamento != "" && s.custo.Some? && s.tipoServico != ""
  }

  predicate ServicoIgnored(s: Servico) {
    !ServicoValid(s)
  }

  /** The `SELECT` that finds an equipment by code or description. */
  function EquipamentoMatch(equipamento: string): string {
    "codigo = " + SqlString(equipamento) + " OR descricao = " + SqlString(equipamento)
  }

  /** The twelve lines of one service insert: the column list, the looked-up ids, the values and the guard. */
  function ServicoLines(s: Servico, usuarioId: string, env: Builtins): seq<string>
    requires ServicoValid(s)
  {
    ServicoLookups(s) + ServicoValues(s, usuarioId, env) + ServicoGuard(s)
  }

  function ServicoLookups(s: Servico): seq<string> {
    [ InsertInto + ServicoColumns,
      "SELECT",
      Continuation(SelectEquipamento + EquipamentoMatch(s.equipamento) + AsEquipamentoId),
      Continuation(SelectTipoServico + SqlString(s.tipoServico) + AsTipoServicoId),
      Continuation(SelectFornecedor + SqlString(s.fornecedor) + AsFornecedorId) ]
  }

  function ServicoValues(s: Servico, usuarioId: string, env: Builtins): seq<string>
    requires s.custo.Some?
  {
    [ Continuation(SqlDate(s.data) + " as data_servico,"),
      Continuation(SqlString(s.descricao) + " as descricao,"),
      Continuation(env.numberToString(s.custo.value) + " as custo,"),
      Continuation(SqlString(usuarioId) + AsUsuarioId) ]
  }

  /** The insert only runs when the equipment and the service type exist. */
  function ServicoGuard(s: Servico): seq<string> {
    [ Where + ExistsEquipamento + EquipamentoMatch(s.equipamento) + ")",
      Continuation(AndExistsTipoServico + SqlString(s.tipoServico) + ");"),
      "" ]
  }

  /** What one pass of the `forEach` writes for a service: its insert, or nothing when it is ignored. */
  function ServicoInsert(s: Servico, usuarioId: string, env: Builtins): seq<string> {
    if ServicoValid(s) then ServicoLines(s, usuarioId, env) else []
  }

  function ServicoInsertFn(usuarioId: string, env: Builtins): Servico -> seq<string> {
    s => ServicoInsert(s, usuarioId, env)
  }

  /** Writing one more service extends the output of the services before it. */
  lemma ServicoPush(start: seq<string>, data: seq<Servico>, i: nat, usuarioId: string, env: Builtins,
                    before: seq<string>, after: seq<string>)
    requires i < |data|
    requires before == start + ConcatMap(data[..i], ServicoInsertFn(usuarioId, env))
    requires after == before + ServicoInsert(data[i], usuarioId, env)
    ensures after == start + ConcatMap(data[..i + 1], ServicoInsertFn(usuarioId, env))
  {
    ConcatMapPush(start, data, ServicoInsertFn(usuarioId, env), i, before, after);
  }

  const ServicoNotes: seq<string> := [
    Comment + NoteSubqueries,
    Comment + NoteOrder,
    Comment + NoteRequired,
    ""]

  /** What `processServicos` writes for the rows of the sheet it found. */
  function ServicosLines(rows: seq<Row>, usuarioId: string, env: Builtins): seq<string> {
    SectionHeader("SERVIÇOS") + ServicoNotes
      + ConcatMap(ServicoRecords(rows, env), ServicoInsertFn(usuarioId, env))
  }

  /** `processServicos`: nothing when the sheet is missing. */
  function ServicosSection(wb: Workbook, usuarioId: string, env: Builtins): seq<string> {
    match FindSheet(wb.sheetNames, ServicoSheetNames)
    case None => []
    case Some(name) => ServicosLines(SheetRows(wb, name), usuarioId, env)
  }

  lemma ServicoInsertLength(x: Servico, usuarioId: string, env: Builtins)
    ensures |ServicoInsert(x, usuarioId, env)| == if ServicoValid(x) then 12 else 0
  {
    if ServicoValid(x) {
      assert |ServicoLookups(x)| == 5;
      assert |ServicoValues(x, usuarioId, env)| == 4;
      assert |ServicoGuard(x)| == 3;
    }
  }

  /**
    Every service record is written or ignored, never both: the written ones are
    those with a date, an equipment, a cost and a type, each taking twelve lines,
    and the two counts add up to the number of records.
   */
  lemma ServicosWrittenOrIgnored(data: seq<Servico>, usuarioId: string, env: Builtins)
    ensures |ConcatMap(data, ServicoInsertFn(usuarioId, env))| == 12 * Count(data, ServicoValid)
    ensures Count(data, ServicoValid) + Count(data, ServicoIgnored) == |data|
  {
    forall x | x in data
      ensures |ServicoInsertFn(usuarioId, env)(x)| == if ServicoValid(x) then 12 else 0
    {
      ServicoInsertLength(x, usuarioId, env);
    }
    ConcatMapLength(data, ServicoInsertFn(usuarioId, env), ServicoValid, 12);
    CountComplement(data, ServicoValid, ServicoIgnored);
  }

  // ---------------------------------------------------------------- horímetros

  datatype Horimetro = Horimetro(data: Option<string>, equipamento: string, leitura: Option<real>, observacao: string)

  /** A row with a date other than the header text `DATA INÍCIAL` and an equipment. */
  predicate HorimetroRowKept(row: Row) {
    Truthy(At(row, 0)) && At(row, 0) != Text("DATA INÍCIAL") && Truthy(At(row, 1))
  }

  /** The reading is taken from the seventh column; the note names the sheet. */
  function HorimetroOfRow(row: Row, sheetName: string, env: Builtins): Horimetro {
    Horimetro(ParseDate(At(row, 0), env), CleanString(At(row, 1), env), ParseNumber(At(row, 6)),
              "Importado de: " + sheetName)
  }

  function HorimetroOfRowFn(sheetName: string, env: Builtins): Row -> Horimetro {
    row => HorimetroOfRow(row, sheetName, env)
  }

  function HorimetroRecords(wb: Workbook, sheetName: string, env: Builtins): seq<Horimetro> {
    Map(Filter(SheetRows(wb, sheetName), HorimetroRowKept), HorimetroOfRowFn(sheetName, env))
  }

  /** A reading is written when it has a date, an equipment and a value (zero included). */
  predicate HorimetroValid(h: Horimetro) {
    h.data.Some? && h.data.value != "" && h.equipamento != "" && h.leitura.Some?
  }

  /** The nine lines of one hour-meter insert. */
  function HorimetroLines(h: Horimetro, usuarioId: string, env: Builtins): seq<string>
    requires HorimetroValid(h)
  {
    HorimetroLookup(h) + HorimetroValues(h, usuarioId, env) + HorimetroGuard(h)
  }

  function HorimetroLookup(h: Horimetro): seq<string> {
    [ InsertInto + HorimetroColumns,
      "SELECT",
      Continuation(SelectEquipamento + EquipamentoMatch(h.equipamento) + AsEquipamentoId) ]
  }

  function HorimetroValues(h: Horimetro, usuarioId: string, env: Builtins): seq<string>
    requires h.leitura.Some?
  {
    [ Continuation(SqlDate(h.data) + " as data_referencia,"),
      Continuation(env.numberToString(h.leitura.value) + " as leitura,"),
      Continuation(SqlString(h.observacao) + " as observacao,"),
      Continuation(SqlString(usuarioId) + AsUsuarioId) ]
  }

  /** The insert only runs when the equipment exists. */
  function HorimetroGuard(h: Horimetro): seq<string> {
    [ Where + ExistsEquipamento + EquipamentoMatch(h.equipamento) + ");",
      "" ]
  }

  function HorimetroInsert(h: Horimetro, usuarioId: string, env: Builtins): seq<string> {
    if HorimetroValid(h) then HorimetroLines(h, usuarioId, env) else []
  }

  function HorimetroInsertFn(usuarioId: string, env: Builtins): Horimetro -> seq<string> {
    h => HorimetroInsert(h, usuarioId, env)
  }

  /** Writing one more reading extends the output of the readings before it. */
  lemma HorimetroPush(start: seq<string>, data: seq<Horimetro>, i: nat, usuarioId: string, env: Builtins,
                      before: seq<string>, after: seq<string>)
    requires i < |data|
    requires before == start + ConcatMap(data[..i], HorimetroInsertFn(usuarioId, env))
    requires after == before + HorimetroInsert(data[i], usuarioId, env)
    ensures after == start + ConcatMap(data[..i + 1], HorimetroInsertFn(usuarioId, env))
  {
    ConcatMapPush(start, data, HorimetroInsertFn(usuarioId, env), i, before, after);
  }

  /** Everything written for one hour-meter sheet. */
  function HorimetroSheetLines(wb: Workbook, sheetName: string, usuarioId: string, env: Builtins): seq<string> {
    ConcatMap(HorimetroRecords(wb, sheetName, env), HorimetroInsertFn(usuarioId, env))
  }

  function HorimetroSheetLinesFn(wb: Workbook, usuarioId: string, env: Builtins): string -> seq<string> {
    sheetName => HorimetroSheetLines(wb, sheetName, usuarioId, env)
  }

  /** The number of records read from the given hour-meter sheets, written or not. */
  function HorimetroTotal(wb: Workbook, sheetNames: seq<string>, env: Builtins): nat {
    if sheetNames == [] then 0
    else HorimetroTotal(wb, sheetNames[..|sheetNames| - 1], env) + |HorimetroRecords(wb, sheetNames[|sheetNames| - 1], env)|
  }

  /** Pass `j` of the outer `forEach` extends the output of the passes before it. */
  lemma HorimetroSheetPush(start: seq<string>, hs: seq<string>, j: nat, wb: Workbook, usuarioId: string, env: Builtins,
                           before: seq<string>, after: seq<string>)
    requires j < |hs|
    requires before == start + ConcatMap(hs[..j], HorimetroSheetLinesFn(wb, usuarioId, env))
    requires after == before + HorimetroSheetLines(wb, hs[j], usuarioId, env)
    ensures after == start + ConcatMap(hs[..j + 1], HorimetroSheetLinesFn(wb, usuarioId, env))
  {
    ConcatMapPush(start, hs, HorimetroSheetLinesFn(wb, usuarioId, env), j, before, after);
  }

  lemma HorimetroTotalStep(wb: Workbook, hs: seq<string>, j: nat, env: Builtins)
    requires j < |hs|
    ensures HorimetroTotal(wb, hs[..j + 1], env) == HorimetroTotal(wb, hs[..j], env) + |HorimetroRecords(wb, hs[j], env)|
  {
    assert hs[..j + 1][..j] == hs[..j];
  }

  /** The comment that counts the hour-meter sheets, and a blank line. */
  function HorimetroNote(sheetCount: nat): seq<string> {
    [Comment + "Encontradas " + NatToString(sheetCount) + " abas de horímetros", ""]
  }

  /** What `processHorimetros` writes for the hour-meter sheets it found. */
  function HorimetrosLines(wb: Workbook, hs: seq<string>, usuarioId: string, env: Builtins): seq<string> {
    SectionHeader("HORÍMETROS") + HorimetroNote(|hs|) + ConcatMap(hs, HorimetroSheetLinesFn(wb, usuarioId, env))
  }

  /** `processHorimetros`: nothing when no sheet name mentions hour meters. */
  function HorimetrosSection(wb: Workbook, usuarioId: string, env: Builtins): seq<string> {
    var hs := HorimetroSheets(wb.sheetNames);
    if hs == [] then [] else HorimetrosLines(wb, hs, usuarioId, env)
  }

  // ---------------------------------------------------------------- the whole script

  /** What `processAll` appends. */
  function Sections(wb: Workbook, usuarioId: string, env: Builtins): seq<string> {
    EquipamentosSection(wb, env) + FornecedoresSection(wb, env) + TiposServicoSection(wb, env)
      + ServicosSection(wb, usuarioId, env) + HorimetrosSection(wb, usuarioId, env)
  }

  /** The lines `saveSQL` joins: preamble, sections and the closing `COMMIT;`. */
  function Script(wb: Workbook, usuarioId: string, generatedAt: string, env: Builtins): seq<string> {
    Preamble(generatedAt) + Sections(wb, usuarioId, env) + ["", "COMMIT;"]
  }

  /**
    A line a section writes: empty, or starting with `-` (comments), `I`
    (INSERT), `S` (SELECT), a space (continuations) or `W` (WHERE). Neither
    `BEGIN;` nor `COMMIT;` is such a line.
   */
  predicate BodyLine(l: string) {
    l == "" || l[0] == '-' || l[0] == 'I' || l[0] == 'S' || l[0] == ' ' || l[0] == 'W'
  }

  predicate AllBody(lines: seq<string>) {
    forall k :: 0 <= k < |lines| ==> BodyLine(lines[k])
  }

  lemma AllBodyAppend(a: seq<string>, b: seq<string>)
    requires AllBody(a) && AllBody(b)
    ensures AllBody(a + b)
  {
    forall k | 0 <= k < |a + b| ensures BodyLine((a + b)[k]) {
      if k >= |a| {
        assert (a + b)[k] == b[k - |a|];
      }
    }
  }

  lemma HeaderBody(title: string, extra: seq<string>)
    requires AllBody(extra)
    ensures AllBody(SectionHeader(title) + extra)
  {
    var h := SectionHeader(title);
    assert AllBody(h) by {
      assert h[1] == "-- " + title;
    }
    AllBodyAppend(h, extra);
  }

  lemma ConcatMapBody<T>(s: seq<T>, f: T -> seq<string>)
    requires forall x :: x in s ==> AllBody(f(x))
    ensures AllBody(ConcatMap(s, f))
  {
    ConcatMapAll(s, f, BodyLine);
  }

  /** A header, comment lines and the statements for each item. */
  lemma SectionBody<T>(title: string, extra: seq<string>, items: seq<T>, f: T -> seq<string>)
    requires AllBody(extra)
    requires forall x :: x in items ==> AllBody(f(x))
    ensures AllBody(SectionHeader(title) + extra + ConcatMap(items, f))
    ensures AllBody(SectionHeader(title) + extra + ConcatMap(items, f) + [""])
  {
    HeaderBody(title, extra);
    ConcatMapBody(items, f);
    AllBodyAppend(SectionHeader(title) + extra, ConcatMap(items, f));
    AllBodyAppend(SectionHeader(title) + extra + ConcatMap(items, f), [""]);
  }

  lemma EquipamentoInsertBody(eq: Equipamento)
    ensures AllBody(EquipamentoInsert(eq))
  {
    if Codigo(eq) != "" && Descricao(eq) != "" {
      assert EquipamentoLine(Codigo(eq), Descricao(eq))[0] == 'I';
    }
  }

  lemma EquipamentosBody(rows: seq<Row>, env: Builtins)
    ensures AllBody(EquipamentosLines(rows, env))
  {
    var eqs := FirstByKey(EquipamentoRecords(rows, env), EquipamentoKey, {});
    forall x | x in eqs ensures AllBody(EquipamentoInsert(x)) {
      EquipamentoInsertBody(x);
    }
    SectionBody("EQUIPAMENTOS", [""], eqs, EquipamentoInsert);
  }

  lemma FornecedoresBody(rows: seq<Row>, env: Builtins)
    ensures AllBody(FornecedoresLines(rows, env))
  {
    SectionBody("FORNECEDORES", [""], UniqueNames(FornecedorNames(rows, env)), FornecedorInsert);
  }

  lemma TiposServicoBody(rows: seq<Row>, env: Builtins)
    ensures AllBody(TiposServicoLines(rows, env))
  {
    SectionBody("TIPOS DE SERVIÇO", [""], UniqueNames(TipoServicoNames(rows, env)), TipoServicoInsert);
  }

  lemma ServicoLookupsBody(x: Servico)
    ensures AllBody(ServicoLookups(x))
  {
    var a := ServicoLookups(x);
    forall k | 0 <= k < |a| ensures BodyLine(a[k]) {
    }
  }

  lemma ServicoValuesBody(x: Servico, usuarioId: string, env: Builtins)
    requires x.custo.Some?
    ensures AllBody(ServicoValues(x, usuarioId, env))
  {
    var b := ServicoValues(x, usuarioId, env);
    forall k | 0 <= k < |b| ensures BodyLine(b[k]) {
    }
  }

  lemma ServicoGuardBody(x: Servico)
    ensures AllBody(ServicoGuard(x))
  {
    var c := ServicoGuard(x);
    forall k | 0 <= k < |c| ensures BodyLine(c[k]) {
    }
  }

  lemma ServicoInsertBody(x: Servico, usuarioId: string, env: Builtins)
    ensures AllBody(ServicoInsert(x, usuarioId, env))
  {
    if ServicoValid(x) {
      ServicoLookupsBody(x);
      ServicoValuesBody(x, usuarioId, env);
      ServicoGuardBody(x);
      AllBodyAppend(ServicoLookups(x), ServicoValues(x, usuarioId, env));
      AllBodyAppend(ServicoLookups(x) + ServicoValues(x, usuarioId, env), ServicoGuard(x));
    }
  }

  lemma ServicoNotesBody()
    ensures AllBody(ServicoNotes)
  {
    forall k | 0 <= k < |ServicoNotes| ensures BodyLine(ServicoNotes[k]) {
    }
  }

  lemma ServicosBody(rows: seq<Row>, usuarioId: string, env: Builtins)
    ensures AllBody(ServicosLines(rows, usuarioId, env))
  {
    var data := ServicoRecords(rows, env);
    forall x | x in data ensures AllBody(ServicoInsertFn(usuarioId, env)(x)) {
      ServicoInsertBody(x, usuarioId, env);
    }
    ServicoNotesBody();
    SectionBody("SERVIÇOS", ServicoNotes, data, ServicoInsertFn(usuarioId, env));
  }

  lemma HorimetroLookupBody(x: Horimetro)
    ensures AllBody(HorimetroLookup(x))
  {
    var a := HorimetroLookup(x);
    forall k | 0 <= k < |a| ensures BodyLine(a[k]) {
    }
  }

  lemma HorimetroValuesBody(x: Horimetro, usuarioId: string, env: Builtins)
    requires x.leitura.Some?
    ensures AllBody(HorimetroValues(x, usuarioId, env))
  {
    var b := HorimetroValues(x, usuarioId, env);
    forall k | 0 <= k < |b| ensures BodyLine(b[k]) {
    }
  }

  lemma HorimetroGuardBody(x: Horimetro)
    ensures AllBody(HorimetroGuard(x))
  {
    var c := HorimetroGuard(x);
    forall k | 0 <= k < |c| ensures BodyLine(c[k]) {
    }
  }

  lemma HorimetroInsertBody(x: Horimetro, usuarioId: string, env: Builtins)
    ensures AllBody(HorimetroInsert(x, usuarioId, env))
  {
    if HorimetroValid(x) {
      HorimetroLookupBody(x);
      HorimetroValuesBody(x, usuarioId, env);
      HorimetroGuardBody(x);
      AllBodyAppend(HorimetroLookup(x), HorimetroValues(x, usuarioId, env));
      AllBodyAppend(HorimetroLookup(x) + HorimetroValues(x, usuarioId, env), HorimetroGuard(x));
    }
  }

  lemma HorimetroSheetBody(wb: Workbook, name: string, usuarioId: string, env: Builtins)
    ensures AllBody(HorimetroSheetLines(wb, name, usuarioId, env))
  {
    var data := HorimetroRecords(wb, name, env);
    forall x | x in data ensures AllBody(HorimetroInsertFn(usuarioId, env)(x)) {
      HorimetroInsertBody(x, usuarioId, env);
    }
    ConcatMapBody(data, HorimetroInsertFn(usuarioId, env));
  }

  lemma HorimetrosBody(wb: Workbook, hs: seq<string>, usuarioId: string, env: Builtins)
    ensures AllBody(HorimetrosLines(wb, hs, usuarioId, env))
  {
    forall name | name in hs ensures AllBody(HorimetroSheetLinesFn(wb, usuarioId, env)(name)) {
      HorimetroSheetBody(wb, name, usuarioId, env);
    }
    var note := HorimetroNote(|hs|);
    assert AllBody(note) by {
      assert note[0][0] == '-';
    }
    SectionBody("HORÍMETROS", note, hs, HorimetroSheetLinesFn(wb, usuarioId, env));
  }

  lemma SectionsBody(wb: Workbook, usuarioId: string, env: Builtins)
    ensures AllBody(Sections(wb, usuarioId, env))
  {
    var e, f, t := EquipamentosSection(wb, env), FornecedoresSection(wb, env), TiposServicoSection(wb, env);
    var sv, h := ServicosSection(wb, usuarioId, env), HorimetrosSection(wb, usuarioId, env);
    assert AllBody(e) by {
      match FindSheet(wb.sheetNames, EquipamentoSheetNames) {
        case None =>
        case Some(name) => EquipamentosBody(SheetRows(wb, name), env);
      }
    }
    assert AllBody(f) by {
      match FindSheet(wb.sheetNames, FornecedorSheetNames) {
        case None =>
        case Some(name) => FornecedoresBody(SheetRows(wb, name), env);
      }
    }
    assert AllBody(t) by {
      match FindSheet(wb.sheetNames, TipoServicoSheetNames) {
        case None =>
        case Some(name) => TiposServicoBody(SheetRows(wb, name), env);
      }
    }
    assert AllBody(sv) by {
      match FindSheet(wb.sheetNames, ServicoSheetNames) {
        case None =>
        case Some(name) => ServicosBody(SheetRows(wb, name), usuarioId, env);
      }
    }
    assert AllBody(h) by {
      if HorimetroSheets(wb.sheetNames) != [] {
        HorimetrosBody(wb, HorimetroSheets(wb.sheetNames), usuarioId, env);
      }
    }
    AllBodyFive(e, f, t, sv, h);
  }

  lemma AllBodyFive(e: seq<string>, f: seq<string>, t: seq<string>, sv: seq<string>, h: seq<string>)
    requires AllBody(e) && AllBody(f) && AllBody(t) && AllBody(sv) && AllBody(h)
    ensures AllBody(e + f + t + sv + h)
  {
    AllBodyAppend(e, f);
    AllBodyAppend(e + f, t);
    AllBodyAppend(e + f + t, sv);
    AllBodyAppend(e + f + t + sv, h);
  }

  /**
    A body of section lines between the preamble and the closing lines: `BEGIN;`
    is the fourth line and `COMMIT;` the last, and neither appears anywhere else.
   */
  lemma FramedBody(generatedAt: string, body: seq<string>)
    requires AllBody(body)
    ensures var s := Preamble(generatedAt) + body + ["", "COMMIT;"];
            && s[3] == "BEGIN;" && s[|s| - 1] == "COMMIT;"
            && (forall i :: 0 <= i < |s| && s[i] == "BEGIN;" ==> i == 3)
            && (forall i :: 0 <= i < |s| && s[i] == "COMMIT;" ==> i == |s| - 1)
  {
    var pre := Preamble(generatedAt);
    var s := pre + body + ["", "COMMIT;"];
    forall i | 0 <= i < |s| && s[i] in {"BEGIN;", "COMMIT;"}
      ensures i == 3 || i == |s| - 1
    {
      if i < 5 {
        assert s[i] == pre[i];
        assert pre[1][0] == '-';
      }
    }
  }

  /**
    The script is one transaction: `BEGIN;` is its fourth line and appears
    nowhere else, and `COMMIT;` is its last line and appears nowhere else, so
    every INSERT lies between the two.
   */
  lemma ScriptFraming(wb: Workbook, usuarioId: string, generatedAt: string, env: Builtins)
    ensures Script(wb, usuarioId, generatedAt, env)[3] == "BEGIN;"
    ensures Script(wb, usuarioId, generatedAt, env)[|Script(wb, usuarioId, generatedAt, env)| - 1] == "COMMIT;"
    ensures forall i :: (0 <= i < |Script(wb, usuarioId, generatedAt, env)|
                         && Script(wb, usuarioId, generatedAt, env)[i] == "BEGIN;") ==> i == 3
    ensures forall i :: (0 <= i < |Script(wb, usuarioId, generatedAt, env)|
                         && Script(wb, usuarioId, generatedAt, env)[i] == "COMMIT;")
                        ==> i == |Script(wb, usuarioId, generatedAt, env)| - 1
  {
    var body := Sections(wb, usuarioId, env);
    SectionsBody(wb, usuarioId, env);
    FramedBody(generatedAt, body);
    assert Script(wb, usuarioId, generatedAt, env) == Preamble(generatedAt) + body + ["", "COMMIT;"];
  }
}
