/** The three views migrar_a_sqlite.py creates over the loaded tables. The
    views are functions of the tables' rows; inner joins pair every row of
    one table with every matching row of the other, and GROUP BY is
    Aggregation.GroupBy. Hours are in hundredths and money in centavos, as
    in Dimensions. */
module Migration {
  import opened Dimensions
  import opened Aggregation

  // ---------------------------------------------------------------------
  // Vista_Calidad_Defectos

  datatype QualityKey = QualityKey(projectName: string, maturity: int, severity: Severity)

  /** One row of the view: the group, Total_Defectos and
      Promedio_Horas_Resolucion_MTTR (in hundredths of an hour). */
  datatype QualityRow = QualityRow(projectName: string, maturity: int, severity: Severity,
                                   totalDefects: nat, mttrCentiHours: real)

  /** The rows of Dim_Proyecto whose id_proyecto is pid, in table order. */
  function ProjectsWithId(projects: seq<Project>, pid: int): (ps: seq<Project>)
    ensures forall p :: p in ps <==> p in projects && p.id == pid
  {
    if projects == [] then []
    else
      var last := projects[|projects| - 1];
      ProjectsWithId(projects[..|projects| - 1], pid) + (if last.id == pid then [last] else [])
  }

  /** The joined rows one defect contributes, one per matching project,
      reduced to the grouping key and tiempo_neto_horas. */
  function DefectRows(d: DefectRecord, ps: seq<Project>): (rows: seq<Row<QualityKey>>)
    ensures |rows| == |ps|
    ensures forall i :: 0 <= i < |ps| ==>
              rows[i] == Row(QualityKey(ps[i].name, ps[i].maturity, d.severity), d.netHoursCenti)
  {
    seq(|ps|, i requires 0 <= i < |ps| => Row(QualityKey(ps[i].name, ps[i].maturity, d.severity), d.netHoursCenti))
  }

  /** FROM Fact_Defectos_Calidad FD JOIN Dim_Proyecto P ON FD.id_proyecto = P.id_proyecto. */
  function DefectJoin(defects: seq<DefectRecord>, projects: seq<Project>): seq<Row<QualityKey>> {
    if defects == [] then []
    else
      var d := defects[|defects| - 1];
      DefectJoin(defects[..|defects| - 1], projects) + DefectRows(d, ProjectsWithId(projects, d.projectId))
  }

  function QualityRowOf(g: Group<QualityKey>): QualityRow
    requires g.count >= 1
  {
    QualityRow(g.key.projectName, g.key.maturity, g.key.severity, g.count, Mean(g.total, g.count))
  }

  /** AVG: the sum of a group's measures over its size. */
  function Mean(total: int, count: int): real
    requires count >= 1
  {
    (total as real) / (count as real)
  }

  /** The SELECT list over the groups of the joined rows. */
  function QualityRows(rows: seq<Row<QualityKey>>): (view: seq<QualityRow>)
    ensures var gs := GroupBy(rows);
            |view| == |gs| && forall i :: 0 <= i < |gs| ==> view[i] == QualityRowOf(gs[i])
  {
    var gs := GroupBy(rows);
    seq(|gs|, i requires 0 <= i < |gs| => QualityRowOf(gs[i]))
  }

  /** Vista_Calidad_Defectos. */
  function QualityView(defects: seq<DefectRecord>, projects: seq<Project>): seq<QualityRow> {
    QualityRows(DefectJoin(defects, projects))
  }

  function KeyOfRow(r: QualityRow): QualityKey {
    QualityKey(r.projectName, r.maturity, r.severity)
  }

  /** The grouping key of a defect joined with a project. */
  predicate JoinedAs(d: DefectRecord, p: Project, k: QualityKey) {
    p.id == d.projectId && k == QualityKey(p.name, p.maturity, d.severity)
  }

  /** A key occurs in the join exactly when some defect and some project
      with its id produce it. */
  lemma {:induction false} DefectJoinKeys(defects: seq<DefectRecord>, projects: seq<Project>, k: QualityKey)
    ensures Occurs(DefectJoin(defects, projects), k) <==>
            exists d, p :: d in defects && p in projects && JoinedAs(d, p, k)
  {
    if defects != [] {
      var init, d := defects[..|defects| - 1], defects[|defects| - 1];
      assert defects == init + [d];
      DefectJoinKeys(init, projects, k);
      OccursAppend(DefectJoin(init, projects), DefectRows(d, ProjectsWithId(projects, d.projectId)), k);
      LastDefectKeys(d, projects, k);
      JoinedSplit(init, d, projects, k);
      calc {
        Occurs(DefectJoin(defects, projects), k);
        Occurs(DefectJoin(init, projects), k) || Occurs(DefectRows(d, ProjectsWithId(projects, d.projectId)), k);
        (exists d', p :: d' in init && p in projects && JoinedAs(d', p, k)) ||
        (exists p :: p in projects && JoinedAs(d, p, k));
        exists d', p :: d' in init + [d] && p in projects && JoinedAs(d', p, k);
      }
    }
  }

  /** The rows one defect contributes carry key k exactly when some
      project joins with it as k. */
  lemma LastDefectKeys(d: DefectRecord, projects: seq<Project>, k: QualityKey)
    ensures Occurs(DefectRows(d, ProjectsWithId(projects, d.projectId)), k) <==>
            exists p :: p in projects && JoinedAs(d, p, k)
  {
    var ps := ProjectsWithId(projects, d.projectId);
    var b := DefectRows(d, ps);
    if Occurs(b, k) {
      var i :| 0 <= i < |b| && b[i].key == k;
      assert ps[i] in ps && JoinedAs(d, ps[i], k);
    }
    if exists p :: p in projects && JoinedAs(d, p, k) {
      var p :| p in projects && JoinedAs(d, p, k);
      assert p in ps;
      var i :| 0 <= i < |ps| && ps[i] == p;
      assert b[i].key == k;
    }
  }

  /** A pair from init + [d] is a pair from init or one with d. */
  lemma JoinedSplit(init: seq<DefectRecord>, d: DefectRecord, projects: seq<Project>, k: QualityKey)
    ensures (exists d', p :: d' in init + [d] && p in projects && JoinedAs(d', p, k)) <==>
            (exists d', p :: d' in init && p in projects && JoinedAs(d', p, k)) ||
            (exists p :: p in projects && JoinedAs(d, p, k))
  {
    if exists d', p :: d' in init + [d] && p in projects && JoinedAs(d', p, k) {
      var d', p :| d' in init + [d] && p in projects && JoinedAs(d', p, k);
      if d' != d {
        assert d' in init;
      }
    }
    if exists d', p :: d' in init && p in projects && JoinedAs(d', p, k) {
      var d', p :| d' in init && p in projects && JoinedAs(d', p, k);
      assert d' in init + [d];
    }
    if exists p :: p in projects && JoinedAs(d, p, k) {
      var p :| p in projects && JoinedAs(d, p, k);
      assert d in init + [d];
    }
  }

  lemma {:induction false} OccursAppend<K>(a: seq<Row<K>>, b: seq<Row<K>>, k: K)
    ensures Occurs(a + b, k) <==> Occurs(a, k) || Occurs(b, k)
  {
    if Occurs(a + b, k) {
      var i :| 0 <= i < |a + b| && (a + b)[i].key == k;
      if i >= |a| {
        assert b[i - |a|].key == k;
      }
    }
    if Occurs(b, k) {
      var i :| 0 <= i < |b| && b[i].key == k;
      assert (a + b)[|a| + i].key == k;
    }
    if Occurs(a, k) {
      var i :| 0 <= i < |a| && a[i].key == k;
      assert (a + b)[i].key == k;
    }
  }

  /** Over any joined rows: one view row per key that occurs, none twice,
      each counting the rows of its key and averaging their measures. */
  lemma QualityRowsSpec(rows: seq<Row<QualityKey>>)
    ensures var view := QualityRows(rows);
            && (forall i, j :: 0 <= i < j < |view| ==> KeyOfRow(view[i]) != KeyOfRow(view[j]))
            && (forall i :: 0 <= i < |view| ==> Occurs(rows, KeyOfRow(view[i])))
            && (forall k :: Occurs(rows, k) ==> exists i :: 0 <= i < |view| && KeyOfRow(view[i]) == k)
            && (forall i :: 0 <= i < |view| ==>
                  && view[i].totalDefects == CountOf(rows, KeyOfRow(view[i])) >= 1
                  && view[i].mttrCentiHours == Mean(SumOf(rows, KeyOfRow(view[i])), view[i].totalDefects))
  {
    var gs := GroupBy(rows);
    var view := QualityRows(rows);
    GroupBySpec(rows);
    forall i | 0 <= i < |view|
      ensures KeyOfRow(view[i]) == gs[i].key
    {
    }
    forall k | Occurs(rows, k)
      ensures exists i :: 0 <= i < |view| && KeyOfRow(view[i]) == k
    {
      var i :| 0 <= i < |gs| && gs[i].key == k;
      assert KeyOfRow(view[i]) == k;
    }
  }

  /** No (nombre_proyecto, nivel_madurez_aplicado, severidad) has two rows. */
  lemma QualityViewDistinct(defects: seq<DefectRecord>, projects: seq<Project>)
    ensures var view := QualityView(defects, projects);
            forall i, j :: 0 <= i < j < |view| ==> KeyOfRow(view[i]) != KeyOfRow(view[j])
  {
    QualityRowsSpec(DefectJoin(defects, projects));
  }

  /** Every row's group is that of some defect joined with its project. */
  lemma QualityViewSound(defects: seq<DefectRecord>, projects: seq<Project>)
    ensures var view := QualityView(defects, projects);
            forall i :: 0 <= i < |view| ==>
              exists d, p :: d in defects && p in projects && JoinedAs(d, p, KeyOfRow(view[i]))
  {
    var view := QualityView(defects, projects);
    forall i | 0 <= i < |view|
      ensures exists d, p :: d in defects && p in projects && JoinedAs(d, p, KeyOfRow(view[i]))
    {
      QualityRowsSpec(DefectJoin(defects, projects));
      DefectJoinKeys(defects, projects, KeyOfRow(view[i]));
    }
  }

  /** Every defect whose project exists is in the row of its group: the
      project's name and maturity and the defect's severity. */
  lemma QualityViewComplete(defects: seq<DefectRecord>, projects: seq<Project>)
    ensures var view := QualityView(defects, projects);
            forall d, p :: d in defects && p in projects && p.id == d.projectId ==>
              exists i :: 0 <= i < |view| && KeyOfRow(view[i]) == QualityKey(p.name, p.maturity, d.severity)
  {
    var view := QualityView(defects, projects);
    var rows := DefectJoin(defects, projects);
    QualityRowsSpec(rows);
    forall d, p | d in defects && p in projects && p.id == d.projectId
      ensures exists i :: 0 <= i < |view| && KeyOfRow(view[i]) == QualityKey(p.name, p.maturity, d.severity)
    {
      var k := QualityKey(p.name, p.maturity, d.severity);
      DefectJoinKeys(defects, projects, k);
      assert JoinedAs(d, p, k);
      assert Occurs(rows, k);
    }
  }

  /** Total_Defectos counts the defects of the group joined with their
      project, at least one, and the MTTR is their mean tiempo_neto_horas. */
  lemma QualityViewMeasures(defects: seq<DefectRecord>, projects: seq<Project>)
    ensures var view := QualityView(defects, projects);
            var rows := DefectJoin(defects, projects);
            forall i :: 0 <= i < |view| ==>
              && view[i].totalDefects == CountOf(rows, KeyOfRow(view[i])) >= 1
              && view[i].mttrCentiHours == Mean(SumOf(rows, KeyOfRow(view[i])), view[i].totalDefects)
  {
    QualityRowsSpec(DefectJoin(defects, projects));
  }

  /** The mean times the group size gives back the group's sum. */
  lemma MeanTimesCount(total: int, count: int)
    requires count >= 1
    ensures Mean(total, count) * (count as real) == total as real
  {
  }

  /** Sum of the Total_Defectos column. */
  function TotalDefects(view: seq<QualityRow>): int {
    if view == [] then 0 else TotalDefects(view[..|view| - 1]) + view[|view| - 1].totalDefects
  }

  /** id_proyecto values are unique in Dim_Proyecto. */
  predicate UniqueProjectIds(projects: seq<Project>) {
    forall i, j :: 0 <= i < j < |projects| ==> projects[i].id != projects[j].id
  }

  /** The number of defects whose id_proyecto is a project's id. */
  function MatchedDefects(defects: seq<DefectRecord>, projects: seq<Project>): nat {
    if defects == [] then 0
    else
      var d := defects[|defects| - 1];
      MatchedDefects(defects[..|defects| - 1], projects) + (if exists p :: p in projects && p.id == d.projectId then 1 else 0)
  }

  lemma {:induction false} AtMostOneProjectWithId(projects: seq<Project>, pid: int)
    requires UniqueProjectIds(projects)
    ensures |ProjectsWithId(projects, pid)| == if exists p :: p in projects && p.id == pid then 1 else 0
  {
    if projects != [] {
      var init, last := projects[..|projects| - 1], projects[|projects| - 1];
      AtMostOneProjectWithId(init, pid);
      if last.id == pid {
        forall p | p in init
          ensures p.id != pid
        {
          var i :| 0 <= i < |init| && init[i] == p;
          assert projects[i] == p;
        }
      } else {
        if exists p :: p in projects && p.id == pid {
          var p :| p in projects && p.id == pid;
          assert p in init;
        }
      }
    }
  }

  lemma {:induction false} DefectJoinSize(defects: seq<DefectRecord>, projects: seq<Project>)
    requires UniqueProjectIds(projects)
    ensures |DefectJoin(defects, projects)| == MatchedDefects(defects, projects)
  {
    if defects != [] {
      var d := defects[|defects| - 1];
      DefectJoinSize(defects[..|defects| - 1], projects);
      AtMostOneProjectWithId(projects, d.projectId);
    }
  }

  /** The Total_Defectos column adds up to the number of defects whose
      project exists: the inner join drops the others and no defect is
      counted twice. */
  lemma QualityViewTotal(defects: seq<DefectRecord>, projects: seq<Project>)
    requires UniqueProjectIds(projects)
    ensures TotalDefects(QualityView(defects, projects)) == MatchedDefects(defects, projects)
  {
    var rows := DefectJoin(defects, projects);
    GroupByTotals(rows);
    DefectJoinSize(defects, projects);
    ViewTotalIsCountTotal(QualityRows(rows), GroupBy(rows));
  }

  lemma {:induction false} ViewTotalIsCountTotal(view: seq<QualityRow>, gs: seq<Group<QualityKey>>)
    requires |view| == |gs|
    requires forall i :: 0 <= i < |gs| ==> view[i].totalDefects == gs[i].count
    ensures TotalDefects(view) == TotalCount(gs)
  {
    if gs != [] {
      ViewTotalIsCountTotal(view[..|view| - 1], gs[..|gs| - 1]);
    }
  }

  // ---------------------------------------------------------------------
  // Vista_Desempeño_Proyectos

  /** The GROUP BY columns: id_proyecto, nombre_proyecto, estado_actual,
      nombre_cliente, presupuesto_total_mxn. */
  datatype PerformanceKey = PerformanceKey(projectId: int, projectName: string, status: Status,
                                           clientName: string, budgetCents: int)

  /** One row of the view (id_proyecto groups but is not selected). */
  datatype PerformanceRow = PerformanceRow(projectName: string, status: Status, clientName: string,
                                           budgetCents: int, costCents: int, financialStatus: string)

  const SOBRE_COSTO := "Sobre Costo"
  const EN_PRESUPUESTO := "En Presupuesto"

  /** CASE WHEN SUM(costo_imputado) > presupuesto_total_mxn THEN 'Sobre Costo'
      ELSE 'En Presupuesto' END. */
  function FinancialStatus(cost: int, budget: int): string {
    if cost > budget then SOBRE_COSTO else EN_PRESUPUESTO
  }

  /** The rows of Dim_Cliente whose id_cliente is cid, in table order. */
  function ClientsWithId(clients: seq<Client>, cid: int): (cs: seq<Client>)
    ensures forall c :: c in cs <==> c in clients && c.id == cid
  {
    if clients == [] then []
    else
      var last := clients[|clients| - 1];
      ClientsWithId(clients[..|clients| - 1], cid) + (if last.id == cid then [last] else [])
  }

  function KeyOf(p: Project, c: Client): PerformanceKey {
    PerformanceKey(p.id, p.name, p.status, c.name, p.budgetCents)
  }

  /** The joined rows of one project and one of its effort records, one per
      matching client, reduced to the key and costo_imputado. */
  function ClientRows(p: Project, e: EffortRecord, cs: seq<Client>): (rows: seq<Row<PerformanceKey>>)
    ensures |rows| == |cs|
    ensures forall i :: 0 <= i < |cs| ==> rows[i] == Row(KeyOf(p, cs[i]), e.costCents)
  {
    seq(|cs|, i requires 0 <= i < |cs| => Row(KeyOf(p, cs[i]), e.costCents))
  }

  /** The joined rows of one project. */
  function ProjectJoin(p: Project, effort: seq<EffortRecord>, clients: seq<Client>): seq<Row<PerformanceKey>> {
    if effort == [] then []
    else
      var e := effort[|effort| - 1];
      ProjectJoin(p, effort[..|effort| - 1], clients) +
      (if e.projectId == p.id then ClientRows(p, e, ClientsWithId(clients, p.clientId)) else [])
  }

  /** FROM Dim_Proyecto P JOIN Fact_Trazabilidad_Esfuerzo FE ON P.id_proyecto
      = FE.id_proyecto JOIN Dim_Cliente C ON P.id_cliente = C.id_cliente. */
  function PerformanceJoin(projects: seq<Project>, effort: seq<EffortRecord>, clients: seq<Client>)
    : seq<Row<PerformanceKey>>
  {
    if projects == [] then []
    else PerformanceJoin(projects[..|projects| - 1], effort, clients) + ProjectJoin(projects[|projects| - 1], effort, clients)
  }

  function PerformanceRowOf(g: Group<PerformanceKey>): PerformanceRow {
    PerformanceRow(g.key.projectName, g.key.status, g.key.clientName, g.key.budgetCents, g.total,
                   FinancialStatus(g.total, g.key.budgetCents))
  }

  /** The groups of Vista_Desempeño_Proyectos, keyed with id_proyecto. */
  function PerformanceGroups(projects: seq<Project>, effort: seq<EffortRecord>, clients: seq<Client>)
    : seq<Group<PerformanceKey>>
  {
    GroupBy(PerformanceJoin(projects, effort, clients))
  }

  /** Vista_Desempeño_Proyectos. */
  function PerformanceView(projects: seq<Project>, effort: seq<EffortRecord>, clients: seq<Client>)
    : seq<PerformanceRow>
  {
    var gs := PerformanceGroups(projects, effort, clients);
    seq(|gs|, i requires 0 <= i < |gs| => PerformanceRowOf(gs[i]))
  }

  /** Estatus_Financiero is 'Sobre Costo' exactly when the summed cost
      exceeds the budget and 'En Presupuesto' otherwise, equality included. */
  lemma FinancialStatusSpec(projects: seq<Project>, effort: seq<EffortRecord>, clients: seq<Client>)
    ensures forall r :: r in PerformanceView(projects, effort, clients) ==>
              && (r.financialStatus == SOBRE_COSTO <==> r.costCents > r.budgetCents)
              && (r.financialStatus == EN_PRESUPUESTO <==> r.costCents <= r.budgetCents)
  {
    assert SOBRE_COSTO != EN_PRESUPUESTO by {
      assert SOBRE_COSTO[0] != EN_PRESUPUESTO[0];
    }
  }

  /** A record of effort of project pid exists. */
  predicate HasEffort(effort: seq<EffortRecord>, pid: int) {
    exists e :: e in effort && e.projectId == pid
  }

  /** SUM(costo_imputado) over the effort records of project pid. */
  function EffortCost(effort: seq<EffortRecord>, pid: int): int {
    if effort == [] then 0
    else
      var e := effort[|effort| - 1];
      EffortCost(effort[..|effort| - 1], pid) + (if e.projectId == pid then e.costCents else 0)
  }

  /** Every joined row of project p carries p's id, name, status and budget
      and the name of a client with p's id_cliente; there is such a row
      exactly when p has effort and its client exists. */
  lemma ProjectJoinKeys(p: Project, effort: seq<EffortRecord>, clients: seq<Client>)
    ensures forall r :: r in ProjectJoin(p, effort, clients) ==>
              exists c :: c in clients && c.id == p.clientId && r.key == KeyOf(p, c)
    ensures |ProjectJoin(p, effort, clients)| > 0 <==>
              HasEffort(effort, p.id) && exists c :: c in clients && c.id == p.clientId
  {
    ProjectJoinRowKeys(p, effort, clients);
    ProjectJoinNonEmpty(p, effort, clients);
  }

  lemma {:induction false} ProjectJoinRowKeys(p: Project, effort: seq<EffortRecord>, clients: seq<Client>)
    ensures forall r :: r in ProjectJoin(p, effort, clients) ==>
              exists c :: c in clients && c.id == p.clientId && r.key == KeyOf(p, c)
  {
    if effort != [] {
      var init, e := effort[..|effort| - 1], effort[|effort| - 1];
      ProjectJoinRowKeys(p, init, clients);
      var cs := ClientsWithId(clients, p.clientId);
      var tail := if e.projectId == p.id then ClientRows(p, e, cs) else [];
      forall r | r in tail
        ensures exists c :: c in clients && c.id == p.clientId && r.key == KeyOf(p, c)
      {
        var i :| 0 <= i < |tail| && tail[i] == r;
        assert cs[i] in cs;
      }
    }
  }

  lemma {:induction false} ProjectJoinNonEmpty(p: Project, effort: seq<EffortRecord>, clients: seq<Client>)
    ensures |ProjectJoin(p, effort, clients)| > 0 <==>
              HasEffort(effort, p.id) && exists c :: c in clients && c.id == p.clientId
  {
    if effort != [] {
      var init, e := effort[..|effort| - 1], effort[|effort| - 1];
      ProjectJoinNonEmpty(p, init, clients);
      var cs := ClientsWithId(clients, p.clientId);
      if HasEffort(effort, p.id) && !HasEffort(init, p.id) {
        var e' :| e' in effort && e'.projectId == p.id;
        assert e' !in init;
      }
      if HasEffort(init, p.id) {
        var e' :| e' in init && e'.projectId == p.id;
        assert e' in effort;
      }
      if exists c :: c in clients && c.id == p.clientId {
        var c :| c in clients && c.id == p.clientId;
        assert c in cs;
      }
      if |cs| > 0 {
        assert cs[0] in cs;
      }
      assert e in effort;
    }
  }

  /** id_cliente values are unique in Dim_Cliente. */
  predicate UniqueClientIds(clients: seq<Client>) {
    forall i, j :: 0 <= i < j < |clients| ==> clients[i].id != clients[j].id
  }

  lemma {:induction false} OnlyClientWithId(clients: seq<Client>, c: Client)
    requires UniqueClientIds(clients) && c in clients
    ensures ClientsWithId(clients, c.id) == [c]
  {
    var init, last := clients[..|clients| - 1], clients[|clients| - 1];
    if last == c {
      forall c' | c' in init
        ensures c'.id != c.id
      {
        var i :| 0 <= i < |init| && init[i] == c';
        assert clients[i] == c';
      }
      assert ClientsWithId(init, c.id) == [] by {
        if ClientsWithId(init, c.id) != [] {
          assert ClientsWithId(init, c.id)[0] in ClientsWithId(init, c.id);
        }
      }
    } else {
      assert c in init;
      OnlyClientWithId(init, c);
      var i :| 0 <= i < |init| && init[i] == c;
      assert clients[i] == c;
      assert last.id != c.id;
    }
  }

  /** With its client found once, a project's joined rows all have one key,
      and they count its effort records and sum their cost. */
  lemma {:induction false} ProjectJoinCost(p: Project, effort: seq<EffortRecord>, clients: seq<Client>, c: Client)
    requires UniqueClientIds(clients) && c in clients && c.id == p.clientId
    ensures SumOf(ProjectJoin(p, effort, clients), KeyOf(p, c)) == EffortCost(effort, p.id)
  {
    if effort != [] {
      var init, e := effort[..|effort| - 1], effort[|effort| - 1];
      ProjectJoinCost(p, init, clients, c);
      OnlyClientWithId(clients, c);
      var tail := if e.projectId == p.id then ClientRows(p, e, [c]) else [];
      CountSumAppend(ProjectJoin(p, init, clients), tail, KeyOf(p, c));
      if e.projectId == p.id {
        assert tail == [Row(KeyOf(p, c), e.costCents)];
        assert tail[..0] == [];
      }
    }
  }

  /** Rows of projects other than the one with id pid carry other ids. */
  lemma {:induction false} PerformanceJoinOthers(projects: seq<Project>, effort: seq<EffortRecord>,
                                                clients: seq<Client>, k: PerformanceKey)
    requires forall p :: p in projects ==> p.id != k.projectId
    ensures !Occurs(PerformanceJoin(projects, effort, clients), k)
  {
    if projects != [] {
      var init, p := projects[..|projects| - 1], projects[|projects| - 1];
      PerformanceJoinOthers(init, effort, clients, k);
      ProjectJoinKeys(p, effort, clients);
      var b := ProjectJoin(p, effort, clients);
      OccursAppend(PerformanceJoin(init, effort, clients), b, k);
      forall i | 0 <= i < |b|
        ensures b[i].key != k
      {
        assert b[i] in b;
      }
    }
  }

  /** The last project of a + b is the last of b. */
  lemma PerformanceJoinSnoc(a: seq<Project>, b: seq<Project>, effort: seq<EffortRecord>, clients: seq<Client>)
    requires b != []
    ensures PerformanceJoin(a + b, effort, clients) ==
            PerformanceJoin(a + b[..|b| - 1], effort, clients) + ProjectJoin(b[|b| - 1], effort, clients)
  {
    DropLastOfConcat(a, b);
  }

  /** The join of a concatenation of project tables is the concatenation
      of their joins. */
  lemma {:induction false} PerformanceJoinAppend(a: seq<Project>, b: seq<Project>, effort: seq<EffortRecord>,
                                                clients: seq<Client>)
    ensures PerformanceJoin(a + b, effort, clients) ==
            PerformanceJoin(a, effort, clients) + PerformanceJoin(b, effort, clients)
    decreases |b|
  {
    if b == [] {
      assert a + b == a;
    } else {
      var n := |b| - 1;
      PerformanceJoinSnoc(a, b, effort, clients);
      PerformanceJoinAppend(a, b[..n], effort, clients);
      var x, y, z := PerformanceJoin(a, effort, clients), PerformanceJoin(b[..n], effort, clients),
                     ProjectJoin(b[n], effort, clients);
      ConcatAssoc(x, y, z);
    }
  }

  /** Dropping the last element of a + b drops the last element of b. */
  lemma DropLastOfConcat<T>(a: seq<T>, b: seq<T>)
    requires b != []
    ensures (a + b)[..|a + b| - 1] == a + b[..|b| - 1] && (a + b)[|a + b| - 1] == b[|b| - 1]
  {
    assert (a + b)[..|a + b| - 1] == a + b[..|b| - 1];
  }

  /** Concatenation regroups, stated apart from the joins so that the solver
      proves it without their definitions in view. */
  lemma ConcatAssoc<T>(x: seq<T>, y: seq<T>, z: seq<T>)
    ensures (x + y) + z == x + (y + z)
  {
  }

  /** In the join of projects with unique ids, the rows whose key carries
      the id of project j are exactly project j's own joined rows. */
  lemma PerformanceJoinAt(projects: seq<Project>, effort: seq<EffortRecord>, clients: seq<Client>, j: int,
                          k: PerformanceKey)
    requires UniqueProjectIds(projects) && 0 <= j < |projects| && k.projectId == projects[j].id
    ensures var rows, b := PerformanceJoin(projects, effort, clients), ProjectJoin(projects[j], effort, clients);
            && (Occurs(rows, k) <==> Occurs(b, k))
            && CountOf(rows, k) == CountOf(b, k) && SumOf(rows, k) == SumOf(b, k)
  {
    var p := projects[j];
    var before, after := projects[..j], projects[j + 1..];
    var a, b, z := PerformanceJoin(before, effort, clients), ProjectJoin(p, effort, clients),
                   PerformanceJoin(after, effort, clients);
    assert projects == before + [p] + after;
    PerformanceJoinAppend(before + [p], after, effort, clients);
    PerformanceJoinAppend(before, [p], effort, clients);
    assert [p][..0] == [];
    forall q | q in before
      ensures q.id != p.id
    {
      var i :| 0 <= i < |before| && before[i] == q;
      assert projects[i] == q;
    }
    forall q | q in after
      ensures q.id != p.id
    {
      var i :| 0 <= i < |after| && after[i] == q;
      assert projects[j + 1 + i] == q;
    }
    PerformanceJoinOthers(before, effort, clients, k);
    PerformanceJoinOthers(after, effort, clients, k);
    OccursAppend(a, b, k);
    OccursAppend(a + b, z, k);
    AbsentKey(a, k);
    AbsentKey(z, k);
    CountSumAppend(a, b, k);
    CountSumAppend(a + b, z, k);
  }

  /** A project of Dim_Proyecto (ids unique) appears in the view exactly when
      it has effort records and its client exists. */
  lemma PerformanceViewPresence(projects: seq<Project>, effort: seq<EffortRecord>, clients: seq<Client>, j: int)
    requires UniqueProjectIds(projects) && 0 <= j < |projects|
    ensures var gs := PerformanceGroups(projects, effort, clients);
            var p := projects[j];
            (exists i :: 0 <= i < |gs| && gs[i].key.projectId == p.id) <==>
            HasEffort(effort, p.id) && exists c :: c in clients && c.id == p.clientId
  {
    var p := projects[j];
    var gs := PerformanceGroups(projects, effort, clients);
    ProjectJoinKeys(p, effort, clients);
    if |ProjectJoin(p, effort, clients)| > 0 {
      GroupOfJoinedProject(projects, effort, clients, j);
    }
    if exists i :: 0 <= i < |gs| && gs[i].key.projectId == p.id {
      var i :| 0 <= i < |gs| && gs[i].key.projectId == p.id;
      JoinedProjectOfGroup(projects, effort, clients, j, i);
    }
  }

  lemma GroupOfJoinedProject(projects: seq<Project>, effort: seq<EffortRecord>, clients: seq<Client>, j: int)
    requires UniqueProjectIds(projects) && 0 <= j < |projects|
    requires |ProjectJoin(projects[j], effort, clients)| > 0
    ensures var gs := PerformanceGroups(projects, effort, clients);
            exists i :: 0 <= i < |gs| && gs[i].key.projectId == projects[j].id
  {
    var p := projects[j];
    var rows := PerformanceJoin(projects, effort, clients);
    var b := ProjectJoin(p, effort, clients);
    var k := b[0].key;
    ProjectJoinKeys(p, effort, clients);
    assert b[0] in b;
    assert k.projectId == p.id;
    assert Occurs(b, k);
    PerformanceJoinAt(projects, effort, clients, j, k);
    assert Occurs(rows, k);
    GroupBySpec(rows);
    var gs := PerformanceGroups(projects, effort, clients);
    assert gs == GroupBy(rows);
    var i :| 0 <= i < |gs| && gs[i].key == k;
    assert gs[i].key.projectId == projects[j].id;
  }

  lemma JoinedProjectOfGroup(projects: seq<Project>, effort: seq<EffortRecord>, clients: seq<Client>, j: int, i: int)
    requires UniqueProjectIds(projects) && 0 <= j < |projects|
    requires var gs := PerformanceGroups(projects, effort, clients);
             0 <= i < |gs| && gs[i].key.projectId == projects[j].id
    ensures |ProjectJoin(projects[j], effort, clients)| > 0
  {
    var rows := PerformanceJoin(projects, effort, clients);
    var gs := GroupBy(rows);
    GroupBySpec(rows);
    assert Occurs(rows, gs[i].key);
    PerformanceJoinAt(projects, effort, clients, j, gs[i].key);
  }

  /** With project and client ids unique, a project's Costo_Real_Actual is
      the sum of costo_imputado over its effort records. */
  lemma PerformanceViewCost(projects: seq<Project>, effort: seq<EffortRecord>, clients: seq<Client>, j: int)
    requires UniqueProjectIds(projects) && UniqueClientIds(clients) && 0 <= j < |projects|
    ensures var gs := PerformanceGroups(projects, effort, clients);
            forall i :: 0 <= i < |gs| && gs[i].key.projectId == projects[j].id ==>
              PerformanceRowOf(gs[i]).costCents == EffortCost(effort, projects[j].id)
  {
    var p := projects[j];
    var rows := PerformanceJoin(projects, effort, clients);
    var b := ProjectJoin(p, effort, clients);
    var gs := GroupBy(rows);
    GroupBySpec(rows);
    ProjectJoinKeys(p, effort, clients);
    forall i | 0 <= i < |gs| && gs[i].key.projectId == p.id
      ensures PerformanceRowOf(gs[i]).costCents == EffortCost(effort, p.id)
    {
      var k := gs[i].key;
      PerformanceJoinAt(projects, effort, clients, j, k);
      assert Occurs(rows, k);
      var t :| 0 <= t < |b| && b[t].key == k;
      assert b[t] in b;
      var c :| c in clients && c.id == p.clientId && k == KeyOf(p, c);
      ProjectJoinCost(p, effort, clients, c);
    }
  }

  // ---------------------------------------------------------------------
  // Vista_Balanced_Scorecard

  /** Valor_Actual in tenths (85.0 is 850). */
  datatype ScorecardRow = ScorecardRow(perspective: string, kpi: string, valueTenths: int)

  /** Four literal SELECTs joined by UNION ALL. */
  function BalancedScorecard(): (rows: seq<ScorecardRow>)
    ensures |rows| == 4
    ensures forall i :: 0 <= i < 4 ==> 0 <= rows[i].valueTenths <= 1000
  {
    [ ScorecardRow("Financiera", "Rentabilidad", 850),
      ScorecardRow("Clientes", "Satisfacción", 900),
      ScorecardRow("Procesos", "Eficiencia MTTR", 785),
      ScorecardRow("Aprendizaje", "Capacitación", 650) ]
  }

  /** The four perspectives of the scorecard appear once each. */
  lemma ScorecardPerspectivesDistinct()
    ensures forall i, j :: 0 <= i < j < 4 ==> BalancedScorecard()[i].perspective != BalancedScorecard()[j].perspective
  {
    var s := BalancedScorecard();
    assert s[0].perspective[0] == 'F' && s[1].perspective[0] == 'C';
    assert s[2].perspective[0] == 'P' && s[3].perspective[0] == 'A';
  }
}
