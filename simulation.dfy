/** The synthetic warehouse generator of simulacion_dwh.py: the stochastic
    defect predictor and the three append loops that build Dim_Proyecto,
    Fact_Trazabilidad_Esfuerzo and Fact_Defectos_Calidad. Every numpy draw is
    an input record whose fields are constrained to the range numpy can
    return (randint's upper bound is exclusive); what is proved holds for
    every such draw. */
module Simulation {
  import opened Calendar
  import opened Text
  import opened Dimensions

  const N_PROYECTOS := 15

  /** The floor that predecir_defectos_rayleigh puts under the Poisson draw. */
  const MIN_DEFECTS := 5

  // ---------------------------------------------------------------------
  // predecir_defectos_rayleigh

  /** factor_base, in defects per 1000 hours (0.005, 0.01, 0.02). */
  function DefectRatePerMille(maturity: int): int {
    if maturity == 4 then 5
    else if maturity == 3 then 10
    else 20
  }

  /** N_esperado = esfuerzo_estimado * factor_base, scaled by 1000: the mean
      of the Poisson draw. */
  function ExpectedDefectsPerMille(effort: int, maturity: int): int {
    effort * DefectRatePerMille(maturity)
  }

  /** For the same positive effort a more mature process has a strictly
      lower expected defect count; every maturity other than 3 and 4 is
      treated like 2. */
  lemma HigherMaturityFewerExpectedDefects(effort: int, other: int)
    requires effort > 0
    requires other != 3 && other != 4
    ensures ExpectedDefectsPerMille(effort, 4) < ExpectedDefectsPerMille(effort, 3)
    ensures ExpectedDefectsPerMille(effort, 3) < ExpectedDefectsPerMille(effort, 2)
    ensures ExpectedDefectsPerMille(effort, other) == ExpectedDefectsPerMille(effort, 2)
  {
    assert effort * 5 < effort * 10 < effort * 20;
  }

  /** max(5, np.random.poisson(N_esperado)), where sample is the Poisson
      draw: never below 5, and the draw itself whenever it reaches 5. The
      draw is an input, so the mean N_esperado (ExpectedDefectsPerMille of
      the project's effort and maturity) does not enter the defect loop:
      no relation between a project's defect count and its effort or
      maturity is modelled. */
  function PredictDefectsRayleigh(sample: nat): (n: nat)
    ensures n >= MIN_DEFECTS && n >= sample
    ensures n == sample || n == MIN_DEFECTS
  {
    if sample < MIN_DEFECTS then MIN_DEFECTS else sample
  }

  // ---------------------------------------------------------------------
  // Dim_Proyecto

  /** The draws of one iteration of the project loop: the client, the
      estimated effort (randint(200, 2000)), the hourly budget rate in
      centavos (uniform(400, 600)), status, development type and maturity. */
  datatype ProjectDraw = ProjectDraw(clientPick: nat, effort: int, centsPerHour: int,
                                     status: Status, devType: DevType, maturity: int)

  predicate ValidProjectDraw(d: ProjectDraw, nClients: int) {
    && d.clientPick < nClients
    && 200 <= d.effort < 2000
    && 40000 <= d.centsPerHour < 60000
    && d.maturity in {2, 3, 4}
  }

  /** What every row of Dim_Proyecto satisfies. */
  predicate WellFormedProject(p: Project, clients: seq<Client>) {
    && (exists c :: 0 <= c < |clients| && clients[c].id == p.clientId)
    && 200 <= p.estimatedEffort < 2000
    && 400 * 100 * p.estimatedEffort <= p.budgetCents < 600 * 100 * p.estimatedEffort
    && p.maturity in {2, 3, 4}
  }

  lemma BudgetBounds(effort: int, centsPerHour: int)
    requires effort > 0 && 40000 <= centsPerHour < 60000
    ensures 40000 * effort <= effort * centsPerHour < 60000 * effort
  {
  }

  /** The loop `for i in range(1, N_PROYECTOS + 1)` appending to proyectos_data. */
  method BuildProjects(clients: seq<Client>, draws: seq<ProjectDraw>) returns (projects: seq<Project>)
    requires |draws| == N_PROYECTOS
    requires forall i :: 0 <= i < |draws| ==> ValidProjectDraw(draws[i], |clients|)
    ensures |projects| == N_PROYECTOS
    ensures forall i :: 0 <= i < |projects| ==> projects[i].id == i + 1
    ensures forall i :: 0 <= i < |projects| ==> WellFormedProject(projects[i], clients)
    ensures forall i :: 0 <= i < |draws| ==>
              && ValidProjectDraw(draws[i], |clients|)
              && projects[i].name == "Sistema_" + DecimalString(i + 1)
              && projects[i].clientId == clients[draws[i].clientPick].id
              && projects[i].status == draws[i].status
              && projects[i].estimatedEffort == draws[i].effort
              && projects[i].budgetCents == draws[i].effort * draws[i].centsPerHour
              && projects[i].devType == draws[i].devType
              && projects[i].maturity == draws[i].maturity
  {
    projects := [];
    var i := 1;
    while i <= N_PROYECTOS
      invariant 1 <= i <= N_PROYECTOS + 1
      invariant |projects| == i - 1
      invariant forall k :: 0 <= k < |projects| ==> projects[k].id == k + 1
      invariant forall k :: 0 <= k < |projects| ==> WellFormedProject(projects[k], clients)
      invariant forall k :: 0 <= k < |projects| ==>
                  && projects[k].name == "Sistema_" + DecimalString(k + 1)
                  && projects[k].clientId == clients[draws[k].clientPick].id
                  && projects[k].status == draws[k].status
                  && projects[k].estimatedEffort == draws[k].effort
                  && projects[k].budgetCents == draws[k].effort * draws[k].centsPerHour
                  && projects[k].devType == draws[k].devType
                  && projects[k].maturity == draws[k].maturity
    {
      var d := draws[i - 1];
      var clientId := clients[d.clientPick].id;
      var budget := d.effort * d.centsPerHour;
      BudgetBounds(d.effort, d.centsPerHour);
      var project := Project(i, clientId, "Sistema_" + DecimalString(i), d.status, d.effort, budget, d.devType, d.maturity);
      assert WellFormedProject(project, clients);
      projects := projects + [project];
      i := i + 1;
    }
  }

  /** Project names are distinct, so grouping by nombre_proyecto separates projects. */
  lemma ProjectNamesDistinct(projects: seq<Project>, i: int, j: int)
    requires 0 <= i < j < |projects|
    requires projects[i].name == "Sistema_" + DecimalString(i + 1)
    requires projects[j].name == "Sistema_" + DecimalString(j + 1)
    ensures projects[i].name != projects[j].name
  {
    if projects[i].name == projects[j].name {
      LabelInjective("Sistema_", i + 1, j + 1);
    }
  }

  // ---------------------------------------------------------------------
  // Fact_Trazabilidad_Esfuerzo

  /** The draws behind one effort record: the day of HORIZONTE_TIEMPO, the
      employee and process (choice over their id columns) and the hours,
      uniform(0.5, 8.5) rounded to hundredths. */
  datatype EffortDraw = EffortDraw(datePick: nat, employeePick: nat, processPick: nat, hoursCenti: int)

  predicate ValidEffortDraw(d: EffortDraw, nStaff: int) {
    && d.datePick < FACT_DAYS
    && d.employeePick < nStaff
    && d.processPick < N_PROCESOS
    && 50 <= d.hoursCenti <= 850
  }

  predicate ValidEffortDraws(draws: seq<EffortDraw>, nStaff: int) {
    forall j :: 0 <= j < |draws| ==> ValidEffortDraw(draws[j], nStaff)
  }

  /** n_registros: randint(250, 1500) for a delivered project, randint(50, 500) otherwise. */
  predicate ValidRecordCount(status: Status, n: int) {
    if status == Entregado then 250 <= n < 1500 else 50 <= n < 500
  }

  /** What every row of Fact_Trazabilidad_Esfuerzo satisfies. */
  predicate WellFormedEffort(r: EffortRecord, nProjects: int, staff: seq<Employee>) {
    && 1 <= r.projectId <= nProjects
    && (exists day :: 0 <= day < FACT_DAYS && r.timeKey == HorizonKey(day))
    && (exists e :: 0 <= e < |staff| && staff[e].id == r.employeeId)
    && 1 <= r.processId <= N_PROCESOS
    && 50 <= r.hoursCenti <= 850
    && RateOf(staff, r.employeeId).Some?
    && r.costCents == r.hoursCenti * RateOf(staff, r.employeeId).value
  }

  /** Number of effort records of project pid. */
  function EffortCount(facts: seq<EffortRecord>, pid: int): nat {
    if facts == [] then 0
    else EffortCount(facts[..|facts| - 1], pid) + (if facts[|facts| - 1].projectId == pid then 1 else 0)
  }

  /** One effort record from its draws (the body of the inner loop). */
  function EffortRecordOf(id: int, projectId: int, staff: seq<Employee>, processes: seq<Process>,
                          d: EffortDraw): (r: EffortRecord)
    requires IsProcessTable(processes)
    requires ValidEffortDraw(d, |staff|)
  {
    var employeeId := staff[d.employeePick].id;
    var processId := processes[d.processPick].id;
    var rate := RateOf(staff, employeeId).value;
    EffortRecord(id, projectId, HorizonKey(d.datePick), employeeId, processId, d.hoursCenti, d.hoursCenti * rate)
  }

  /** Every generated record satisfies the schema of
      Fact_Trazabilidad_Esfuerzo: a 2024 date of Dim_Tiempo, an existing
      employee and process, 0.50 to 8.50 hours, and cost = hours * rate. */
  lemma EffortRecordWellFormed(id: int, projectId: int, nProjects: int, staff: seq<Employee>,
                               processes: seq<Process>, d: EffortDraw)
    requires IsProcessTable(processes)
    requires ValidEffortDraw(d, |staff|)
    requires 1 <= projectId <= nProjects
    ensures WellFormedEffort(EffortRecordOf(id, projectId, staff, processes, d), nProjects, staff)
  {
    HorizonYear2024(d.datePick);
  }

  /** The records the inner loop appends for one project, the j-th from
      the j-th draw with id firstId + j. */
  function ProjectEffortRecords(firstId: int, projectId: int, staff: seq<Employee>, processes: seq<Process>,
                                draws: seq<EffortDraw>): (rs: seq<EffortRecord>)
    requires IsProcessTable(processes)
    requires ValidEffortDraws(draws, |staff|)
    ensures |rs| == |draws|
  {
    seq(|draws|, j requires 0 <= j < |draws| => EffortRecordOf(firstId + j, projectId, staff, processes, draws[j]))
  }

  /** Records that all belong to project pid0 count |rs| for pid0 and
      nothing for any other project. */
  lemma {:induction false} EffortCountOfOneProject(rs: seq<EffortRecord>, pid0: int, pid: int)
    requires forall k :: 0 <= k < |rs| ==> rs[k].projectId == pid0
    ensures EffortCount(rs, pid) == if pid == pid0 then |rs| else 0
  {
    if rs != [] {
      EffortCountOfOneProject(rs[..|rs| - 1], pid0, pid);
    }
  }

  /** The records of one project are numbered on from firstId, are well
      formed, and are exactly the records of that project among them. */
  lemma ProjectEffortRecordsFacts(firstId: int, projectId: int, nProjects: int, staff: seq<Employee>,
                                  processes: seq<Process>, draws: seq<EffortDraw>)
    requires IsProcessTable(processes)
    requires ValidEffortDraws(draws, |staff|)
    requires 1 <= projectId <= nProjects
    ensures var rs := ProjectEffortRecords(firstId, projectId, staff, processes, draws);
            && (forall k :: 0 <= k < |rs| ==> rs[k].id == firstId + k && WellFormedEffort(rs[k], nProjects, staff))
            && (forall pid :: EffortCount(rs, pid) == if pid == projectId then |draws| else 0)
  {
    ProjectEffortRecordsNumbered(firstId, projectId, nProjects, staff, processes, draws);
    ProjectEffortRecordsCounted(firstId, projectId, staff, processes, draws);
  }

  lemma ProjectEffortRecordsNumbered(firstId: int, projectId: int, nProjects: int, staff: seq<Employee>,
                                     processes: seq<Process>, draws: seq<EffortDraw>)
    requires IsProcessTable(processes)
    requires ValidEffortDraws(draws, |staff|)
    requires 1 <= projectId <= nProjects
    ensures var rs := ProjectEffortRecords(firstId, projectId, staff, processes, draws);
            forall k :: 0 <= k < |rs| ==> rs[k].id == firstId + k && WellFormedEffort(rs[k], nProjects, staff)
  {
    var rs := ProjectEffortRecords(firstId, projectId, staff, processes, draws);
    forall k | 0 <= k < |rs|
      ensures rs[k].id == firstId + k && WellFormedEffort(rs[k], nProjects, staff)
    {
      EffortRecordWellFormed(firstId + k, projectId, nProjects, staff, processes, draws[k]);
    }
  }

  lemma ProjectEffortRecordsCounted(firstId: int, projectId: int, staff: seq<Employee>,
                                    processes: seq<Process>, draws: seq<EffortDraw>)
    requires IsProcessTable(processes)
    requires ValidEffortDraws(draws, |staff|)
    ensures var rs := ProjectEffortRecords(firstId, projectId, staff, processes, draws);
            forall pid :: EffortCount(rs, pid) == if pid == projectId then |draws| else 0
  {
    var rs := ProjectEffortRecords(firstId, projectId, staff, processes, draws);
    forall pid
      ensures EffortCount(rs, pid) == if pid == projectId then |draws| else 0
    {
      EffortCountOfOneProject(rs, projectId, pid);
    }
  }

  /** Counting over a concatenation adds the counts. */
  lemma {:induction false} EffortCountAppend(a: seq<EffortRecord>, b: seq<EffortRecord>, pid: int)
    ensures EffortCount(a + b, pid) == EffortCount(a, pid) + EffortCount(b, pid)
    decreases |b|
  {
    if b != [] {
      var n := |b| - 1;
      assert (a + b)[..|a + b| - 1] == a + b[..n];
      EffortCountAppend(a, b[..n], pid);
    } else {
      assert a + b == a;
    }
  }

  /** The inner loop over the fechas_registro of one project; id_registro is
      always one more than the number of records generated so far. */
  method AppendProjectEffort(facts: seq<EffortRecord>, project: Project,
                             staff: seq<Employee>, processes: seq<Process>, draws: seq<EffortDraw>)
    returns (out: seq<EffortRecord>)
    requires IsProcessTable(processes)
    requires ValidEffortDraws(draws, |staff|)
    ensures out == facts + ProjectEffortRecords(|facts| + 1, project.id, staff, processes, draws)
  {
    ghost var want := ProjectEffortRecords(|facts| + 1, project.id, staff, processes, draws);
    out := facts;
    var nextId := |facts| + 1;
    var j := 0;
    while j < |draws|
      invariant 0 <= j <= |draws| && nextId == |facts| + 1 + j
      invariant out == facts + want[..j]
    {
      var r := EffortRecordOf(nextId, project.id, staff, processes, draws[j]);
      assert want[..j + 1] == want[..j] + [r];
      out := out + [r];
      nextId := nextId + 1;
      j := j + 1;
    }
    assert want[..j] == want;
  }

  /** Records numbered 1, 2, ... in order, each well formed. */
  predicate NumberedEffort(facts: seq<EffortRecord>, nProjects: int, staff: seq<Employee>) {
    forall k :: 0 <= k < |facts| ==> facts[k].id == k + 1 && WellFormedEffort(facts[k], nProjects, staff)
  }

  /** The effort table after the first p projects: numbered, well formed,
      and each of those projects has its n_registros records, the others none. */
  predicate EffortTableUpTo(facts: seq<EffortRecord>, projects: seq<Project>, staff: seq<Employee>,
                            draws: seq<seq<EffortDraw>>, p: int)
    requires |draws| == |projects|
  {
    && NumberedEffort(facts, |projects|, staff)
    && forall q :: 0 <= q < |projects| ==> EffortCount(facts, projects[q].id) == (if q < p then |draws[q]| else 0)
  }

  /** Appending a block of well-formed records numbered on from
      |before| + 1, all of project p and as many as its n_registros, extends
      the table from the first p projects to the first p + 1. */
  lemma {:induction false} EffortTableExtend(before: seq<EffortRecord>, added: seq<EffortRecord>, projects: seq<Project>,
                                            staff: seq<Employee>, draws: seq<seq<EffortDraw>>, p: int)
    requires 0 <= p < |projects| == |draws|
    requires forall i :: 0 <= i < |projects| ==> projects[i].id == i + 1
    requires EffortTableUpTo(before, projects, staff, draws, p)
    requires forall k :: 0 <= k < |added| ==>
               added[k].id == |before| + 1 + k && WellFormedEffort(added[k], |projects|, staff)
    requires forall pid :: EffortCount(added, pid) == if pid == projects[p].id then |draws[p]| else 0
    ensures EffortTableUpTo(before + added, projects, staff, draws, p + 1)
  {
    var facts := before + added;
    forall k | 0 <= k < |facts|
      ensures facts[k].id == k + 1 && WellFormedEffort(facts[k], |projects|, staff)
    {
      if k < |before| {
        assert facts[k] == before[k];
      } else {
        assert facts[k] == added[k - |before|];
      }
    }
    forall q | 0 <= q < |projects|
      ensures EffortCount(facts, projects[q].id) == (if q < p + 1 then |draws[q]| else 0)
    {
      EffortCountAppend(before, added, projects[q].id);
    }
  }

  /** One iteration of the outer loop: appending the block of project p
      extends the table from the first p projects to the first p + 1. */
  lemma EffortTableStep(before: seq<EffortRecord>, projects: seq<Project>, staff: seq<Employee>,
                        processes: seq<Process>, draws: seq<seq<EffortDraw>>, p: int)
    requires IsProcessTable(processes)
    requires 0 <= p < |projects| == |draws|
    requires forall i :: 0 <= i < |projects| ==> projects[i].id == i + 1
    requires ValidEffortDraws(draws[p], |staff|)
    requires EffortTableUpTo(before, projects, staff, draws, p)
    ensures EffortTableUpTo(before + ProjectEffortRecords(|before| + 1, projects[p].id, staff, processes, draws[p]),
                            projects, staff, draws, p + 1)
  {
    ProjectEffortRecordsFacts(|before| + 1, projects[p].id, |projects|, staff, processes, draws[p]);
    EffortTableExtend(before, ProjectEffortRecords(|before| + 1, projects[p].id, staff, processes, draws[p]),
                      projects, staff, draws, p);
  }

  /** Fact_Esfuerzo_Diario as the outer loop builds it: the blocks of the
      projects in order, each numbered on from the records before it. */
  function EffortTable(projects: seq<Project>, staff: seq<Employee>, processes: seq<Process>,
                       draws: seq<seq<EffortDraw>>): seq<EffortRecord>
    requires IsProcessTable(processes)
    requires |draws| == |projects|
    requires forall p :: 0 <= p < |draws| ==> ValidEffortDraws(draws[p], |staff|)
    decreases |projects|
  {
    if projects == [] then []
    else
      var n := |projects| - 1;
      var before := EffortTable(projects[..n], staff, processes, draws[..n]);
      before + ProjectEffortRecords(|before| + 1, projects[n].id, staff, processes, draws[n])
  }

  /** The table of the first p + 1 projects is that of the first p followed
      by the block of project p. */
  lemma EffortTableSnoc(projects: seq<Project>, staff: seq<Employee>, processes: seq<Process>,
                        draws: seq<seq<EffortDraw>>, p: int)
    requires IsProcessTable(processes)
    requires 0 <= p < |projects| == |draws|
    requires forall q :: 0 <= q < |draws| ==> ValidEffortDraws(draws[q], |staff|)
    ensures var before := EffortTable(projects[..p], staff, processes, draws[..p]);
            EffortTable(projects[..p + 1], staff, processes, draws[..p + 1])
              == before + ProjectEffortRecords(|before| + 1, projects[p].id, staff, processes, draws[p])
  {
    assert projects[..p + 1][..p] == projects[..p] && draws[..p + 1][..p] == draws[..p];
  }

  /** The loop over the projects of Dim_Proyecto: every project receives its
      n_registros effort records, numbered 1, 2, ... across projects. */
  method BuildEffortFacts(projects: seq<Project>, staff: seq<Employee>, processes: seq<Process>,
                          draws: seq<seq<EffortDraw>>)
    returns (facts: seq<EffortRecord>)
    requires IsProcessTable(processes)
    requires forall i :: 0 <= i < |projects| ==> projects[i].id == i + 1
    requires |draws| == |projects|
    requires forall p :: 0 <= p < |projects| ==> ValidRecordCount(projects[p].status, |draws[p]|)
    requires forall p :: 0 <= p < |draws| ==> ValidEffortDraws(draws[p], |staff|)
    ensures forall k :: 0 <= k < |facts| ==> facts[k].id == k + 1 && WellFormedEffort(facts[k], |projects|, staff)
    ensures forall p :: 0 <= p < |projects| ==> EffortCount(facts, projects[p].id) == |draws[p]|
    ensures forall p :: 0 <= p < |projects| ==> ValidRecordCount(projects[p].status, EffortCount(facts, projects[p].id))
    ensures facts == EffortTable(projects, staff, processes, draws)
  {
    facts := [];
    var p := 0;
    while p < |projects|
      invariant 0 <= p <= |projects|
      invariant EffortTableUpTo(facts, projects, staff, draws, p)
      invariant facts == EffortTable(projects[..p], staff, processes, draws[..p])
    {
      EffortTableStep(facts, projects, staff, processes, draws, p);
      EffortTableSnoc(projects, staff, processes, draws, p);
      facts := AppendProjectEffort(facts, projects[p], staff, processes, draws[p]);
      p := p + 1;
    }
    assert projects[..p] == projects && draws[..p] == draws;
  }

  // ---------------------------------------------------------------------
  // Fact_Defectos_Calidad

  /** The draws behind one defect: which day of fechas_proyecto it is
      reported on, the closing delay randint(1, 10), the severity, the net
      resolution hours drawn from the normal distribution (in hundredths),
      the responsible non-lead and the process where it was found. */
  datatype DefectDraw = DefectDraw(windowPick: nat, delayDays: int, severity: Severity,
                                   hoursDrawCenti: int, responsiblePick: nat, processPick: nat)

  /** The draws of one project: the Poisson sample, fechas_proyecto (day
      indices into HORIZONTE_TIEMPO) and one draw per predicted defect. */
  datatype ProjectDefectDraws = ProjectDefectDraws(poissonSample: nat, window: seq<nat>, defects: seq<DefectDraw>)

  /** int(esfuerzo_estimado_total / 8): Python truncates toward zero, so
      a non-negative effort gives the whole number of 8-hour days it holds. */
  function WindowSize(effort: int): (n: int)
    ensures effort >= 0 ==> 0 <= n && 8 * n <= effort < 8 * (n + 1)
    ensures effort < 0 ==> n <= 0 && 8 * (n - 1) < effort <= 8 * n
  {
    if effort >= 0 then effort / 8 else -((-effort) / 8)
  }

  /** fechas_proyecto: WindowSize(effort) distinct days (replace=False). */
  predicate ValidWindow(effort: int, window: seq<nat>) {
    && |window| == WindowSize(effort)
    && (forall i :: 0 <= i < |window| ==> window[i] < FACT_DAYS)
    && (forall i, j :: 0 <= i < j < |window| ==> window[i] != window[j])
  }

  predicate ValidDefectDraw(d: DefectDraw, windowSize: int, poolSize: int) {
    && d.windowPick < windowSize
    && 1 <= d.delayDays < 10
    && d.responsiblePick < poolSize
    && d.processPick < N_PROCESOS
  }

  predicate ValidDefectList(defects: seq<DefectDraw>, windowSize: int, poolSize: int) {
    forall j :: 0 <= j < |defects| ==> ValidDefectDraw(defects[j], windowSize, poolSize)
  }

  predicate ValidDefectDraws(effort: int, pd: ProjectDefectDraws, poolSize: int) {
    && ValidWindow(effort, pd.window)
    && |pd.defects| == PredictDefectsRayleigh(pd.poissonSample)
    && ValidDefectList(pd.defects, |pd.window|, poolSize)
  }

  /** desarrolladores: ids of the employees whose role is not project lead,
      in row order. */
  function NonLeadIds(staff: seq<Employee>): seq<int> {
    if staff == [] then []
    else
      var rest := NonLeadIds(staff[..|staff| - 1]);
      var last := staff[|staff| - 1];
      if last.role != LiderDeProyecto then rest + [last.id] else rest
  }

  /** An id is in desarrolladores exactly when some employee row carries it
      with a role other than project lead. */
  lemma {:induction false} NonLeadIdsMembers(staff: seq<Employee>)
    ensures forall x :: x in NonLeadIds(staff) <==>
              exists i :: 0 <= i < |staff| && staff[i].id == x && staff[i].role != LiderDeProyecto
  {
    if staff != [] {
      var init := staff[..|staff| - 1];
      NonLeadIdsMembers(init);
      assert forall i :: 0 <= i < |init| ==> init[i] == staff[i];
    }
  }

  /** Every id of pool names, through the dense employee ids, an employee
      row whose role is not project lead. */
  predicate NonLeadPool(pool: seq<int>, staff: seq<Employee>) {
    forall k :: 0 <= k < |pool| ==> 1 <= pool[k] <= |staff| && staff[pool[k] - 1].role != LiderDeProyecto
  }

  /** With dense employee ids, desarrolladores is such a pool. */
  lemma NonLeadIdsArePool(staff: seq<Employee>)
    requires DenseStaffIds(staff)
    ensures NonLeadPool(NonLeadIds(staff), staff)
  {
    var pool := NonLeadIds(staff);
    NonLeadIdsMembers(staff);
    forall k | 0 <= k < |pool|
      ensures 1 <= pool[k] <= |staff| && staff[pool[k] - 1].role != LiderDeProyecto
    {
      assert pool[k] in pool;
      var i :| 0 <= i < |staff| && staff[i].id == pool[k] && staff[i].role != LiderDeProyecto;
    }
  }

  /** The report key is day `report` of the fact period and the close key
      is day `close` of the horizon, 1 to 9 days later; the variance is the
      difference in days minus the planned 5. */
  predicate ReportedAndClosed(reportKey: int, closeKey: int, variance: int) {
    exists report: nat, close: nat ::
      && report < FACT_DAYS && report < close < report + 10
      && reportKey == HorizonKey(report) && closeKey == HorizonKey(close)
      && variance == close - report - 5
  }

  /** What every row of Fact_Defectos_Calidad satisfies. */
  predicate WellFormedDefect(r: DefectRecord, nProjects: int, staff: seq<Employee>) {
    && 1 <= r.projectId <= nProjects
    && ReportedAndClosed(r.reportKey, r.closeKey, r.closeVariance)
    && 1 <= r.responsibleId <= |staff| && staff[r.responsibleId - 1].role != LiderDeProyecto
    && 1 <= r.processId <= N_PROCESOS
    && r.netHoursCenti >= 25
    && r.defectCount == 1
  }

  /** What the dates of a defect record mean: both keys are rows of
      Dim_Tiempo, the report falls in 2024, the close comes strictly later
      and no later than 2025-01-09, and the variance is the number of days
      between the two dates minus 5, so it lies in -4..4. */
  lemma DefectDates(reportKey: int, closeKey: int, variance: int)
    requires ReportedAndClosed(reportKey, closeKey, variance)
    ensures IsTimeKey(reportKey) && IsTimeKey(closeKey)
    ensures 20240101 <= reportKey <= 20241231
    ensures reportKey < closeKey <= 20250109
    ensures ValidDate(DecodeKey(reportKey)) && ValidDate(DecodeKey(closeKey))
    ensures DayNumber(DecodeKey(closeKey)) - DayNumber(DecodeKey(reportKey)) == variance + 5
    ensures -4 <= variance <= 4
  {
    var report: nat, close: nat :|
      && report < FACT_DAYS && report < close < report + 10
      && reportKey == HorizonKey(report) && closeKey == HorizonKey(close)
      && variance == close - report - 5;
    ReportDay(report);
    CloseDay(report, close);
  }

  /** The report day is a 2024 key of Dim_Tiempo that decodes to its date. */
  lemma ReportDay(report: nat)
    requires report < FACT_DAYS
    ensures IsTimeKey(HorizonKey(report))
    ensures 20240101 <= HorizonKey(report) <= 20241231
    ensures DecodeKey(HorizonKey(report)) == HorizonDate(report)
  {
    HorizonYear2024(report);
    DateKeyRoundTrip(HorizonDate(report));
  }

  /** A close day 1 to 9 days after a report day of the fact period is
      still a key of Dim_Tiempo, later than the report key and no later than
      2025-01-09, reached by adding the delay to the report date, and the day
      numbers differ by the delay. */
  lemma CloseDay(report: nat, close: nat)
    requires report < FACT_DAYS && report < close < report + 10
    ensures AddDays(HorizonDate(report), close - report) == HorizonDate(close)
    ensures IsTimeKey(HorizonKey(close))
    ensures HorizonKey(report) < HorizonKey(close) <= 20250109
    ensures DecodeKey(HorizonKey(close)) == HorizonDate(close)
    ensures DayNumber(HorizonDate(close)) - DayNumber(HorizonDate(report)) == close - report
  {
    CloseDayDate(report, close);
    CloseDayKey(report, close);
  }

  /** The close day is the report date plus the delay, in dates and in day
      numbers. */
  lemma CloseDayDate(report: nat, close: nat)
    requires report <= close
    ensures AddDays(HorizonDate(report), close - report) == HorizonDate(close)
    ensures DayNumber(HorizonDate(close)) - DayNumber(HorizonDate(report)) == close - report
  {
    var delay := close - report;
    HorizonShift(report, delay);
    assert report + delay == close;
  }

  /** The key of the close day is a key of Dim_Tiempo after the report key,
      no later than 2025-01-09, and decodes to the close date. */
  lemma CloseDayKey(report: nat, close: nat)
    requires report < close <= 374
    ensures IsTimeKey(HorizonKey(close))
    ensures HorizonKey(report) < HorizonKey(close) <= 20250109
    ensures DecodeKey(HorizonKey(close)) == HorizonDate(close)
  {
    HorizonKeysIncreasing(report, close);
    LatestCloseKey(close);
    DateKeyRoundTrip(HorizonDate(close));
  }

  /** The dates of one defect: fecha_creacion is day `report` of the fact
      period and fecha_cierre = fecha_creacion + timedelta(days = delay); the
      result holds their keys and varianza_cierre_esperado, the difference
      in days minus 5. The difference of the two dates is the timedelta just
      added, so it is taken as `delay`; DefectDates shows that it is the
      difference of their day numbers. */
  function DefectKeys(report: nat, delay: int): (int, int, int)
    requires report < FACT_DAYS && 1 <= delay < 10
  {
    var created := HorizonDate(report);
    var closed := AddDays(created, delay);
    (DateKey(created), DateKey(closed), delay - 5)
  }

  /** The keys computed for a defect are a report day of the fact period
      and a close day 1 to 9 days later, with their variance. */
  lemma DefectKeysReportedAndClosed(report: nat, delay: int)
    requires report < FACT_DAYS && 1 <= delay < 10
    ensures var keys := DefectKeys(report, delay); ReportedAndClosed(keys.0, keys.1, keys.2)
  {
    CloseDay(report, report + delay);
    assert HorizonKey(report) == DateKey(HorizonDate(report));
  }

  /** No horizon day up to index 374 lies after 2025-01-09. */
  lemma LatestCloseKey(i: nat)
    requires i <= 374
    ensures HorizonKey(i) <= 20250109
  {
    HorizonLandmarks();
    if i < 374 {
      HorizonKeysIncreasing(i, 374);
    }
  }

  /** One defect record from its draws (the body of the inner loop). */
  function DefectRecordOf(id: int, projectId: int, staff: seq<Employee>, pool: seq<int>,
                          processes: seq<Process>, window: seq<nat>, d: DefectDraw): (r: DefectRecord)
    requires NonLeadPool(pool, staff)
    requires IsProcessTable(processes)
    requires forall i :: 0 <= i < |window| ==> window[i] < FACT_DAYS
    requires ValidDefectDraw(d, |window|, |pool|)
  {
    var keys := DefectKeys(window[d.windowPick], d.delayDays);
    var responsible := pool[d.responsiblePick];
    var processId := processes[d.processPick].id;
    DefectRecord(id, projectId, keys.0, keys.1, responsible, processId, d.severity,
                 if d.hoursDrawCenti < 25 then 25 else d.hoursDrawCenti, keys.2, 1)
  }

  /** Every generated defect satisfies the schema of Fact_Defectos_Calidad:
      dates reported within the horizon and closed 1 to 9 days later, a
      non-lead responsible, a catalogue process, at least 0.25 hours. */
  lemma DefectRecordWellFormed(id: int, projectId: int, nProjects: int, staff: seq<Employee>, pool: seq<int>,
                               processes: seq<Process>, window: seq<nat>, d: DefectDraw)
    requires NonLeadPool(pool, staff)
    requires IsProcessTable(processes)
    requires forall i :: 0 <= i < |window| ==> window[i] < FACT_DAYS
    requires ValidDefectDraw(d, |window|, |pool|)
    requires 1 <= projectId <= nProjects
    ensures WellFormedDefect(DefectRecordOf(id, projectId, staff, pool, processes, window, d), nProjects, staff)
  {
    DefectKeysReportedAndClosed(window[d.windowPick], d.delayDays);
  }

  /** Number of defect records of project pid. */
  function DefectCount(facts: seq<DefectRecord>, pid: int): nat {
    if facts == [] then 0
    else DefectCount(facts[..|facts| - 1], pid) + (if facts[|facts| - 1].projectId == pid then 1 else 0)
  }

  /** The defects the inner loop generates for one project, the i-th from
      the i-th draw with id firstId + i. */
  function ProjectDefectRecords(firstId: int, projectId: int, staff: seq<Employee>, pool: seq<int>,
                                processes: seq<Process>, window: seq<nat>, defects: seq<DefectDraw>): (rs: seq<DefectRecord>)
    requires NonLeadPool(pool, staff) && IsProcessTable(processes)
    requires forall i :: 0 <= i < |window| ==> window[i] < FACT_DAYS
    requires ValidDefectList(defects, |window|, |pool|)
    ensures |rs| == |defects|
  {
    seq(|defects|, i requires 0 <= i < |defects| =>
      DefectRecordOf(firstId + i, projectId, staff, pool, processes, window, defects[i]))
  }

  /** Records that all belong to project pid0 count |rs| for pid0 and
      nothing for any other project. */
  lemma {:induction false} DefectCountOfOneProject(rs: seq<DefectRecord>, pid0: int, pid: int)
    requires forall k :: 0 <= k < |rs| ==> rs[k].projectId == pid0
    ensures DefectCount(rs, pid) == if pid == pid0 then |rs| else 0
  {
    if rs != [] {
      DefectCountOfOneProject(rs[..|rs| - 1], pid0, pid);
    }
  }

  /** Counting over a concatenation adds the counts. */
  lemma {:induction false} DefectCountAppend(a: seq<DefectRecord>, b: seq<DefectRecord>, pid: int)
    ensures DefectCount(a + b, pid) == DefectCount(a, pid) + DefectCount(b, pid)
    decreases |b|
  {
    if b != [] {
      var n := |b| - 1;
      assert (a + b)[..|a + b| - 1] == a + b[..n];
      DefectCountAppend(a, b[..n], pid);
    } else {
      assert a + b == a;
    }
  }

  /** The defects of one project are numbered on from firstId, are well
      formed, and are exactly the defects of that project among them. */
  lemma ProjectDefectRecordsFacts(firstId: int, projectId: int, nProjects: int, staff: seq<Employee>, pool: seq<int>,
                                  processes: seq<Process>, window: seq<nat>, defects: seq<DefectDraw>)
    requires NonLeadPool(pool, staff) && IsProcessTable(processes)
    requires forall i :: 0 <= i < |window| ==> window[i] < FACT_DAYS
    requires ValidDefectList(defects, |window|, |pool|)
    requires 1 <= projectId <= nProjects
    ensures var rs := ProjectDefectRecords(firstId, projectId, staff, pool, processes, window, defects);
            && (forall k :: 0 <= k < |rs| ==> rs[k].id == firstId + k && WellFormedDefect(rs[k], nProjects, staff))
            && (forall pid :: DefectCount(rs, pid) == if pid == projectId then |defects| else 0)
  {
    ProjectDefectRecordsNumbered(firstId, projectId, nProjects, staff, pool, processes, window, defects);
    ProjectDefectRecordsCounted(firstId, projectId, staff, pool, processes, window, defects);
  }

  lemma ProjectDefectRecordsNumbered(firstId: int, projectId: int, nProjects: int, staff: seq<Employee>, pool: seq<int>,
                                     processes: seq<Process>, window: seq<nat>, defects: seq<DefectDraw>)
    requires NonLeadPool(pool, staff) && IsProcessTable(processes)
    requires forall i :: 0 <= i < |window| ==> window[i] < FACT_DAYS
    requires ValidDefectList(defects, |window|, |pool|)
    requires 1 <= projectId <= nProjects
    ensures var rs := ProjectDefectRecords(firstId, projectId, staff, pool, processes, window, defects);
            forall k :: 0 <= k < |rs| ==> rs[k].id == firstId + k && WellFormedDefect(rs[k], nProjects, staff)
  {
    var rs := ProjectDefectRecords(firstId, projectId, staff, pool, processes, window, defects);
    forall k | 0 <= k < |rs|
      ensures rs[k].id == firstId + k && WellFormedDefect(rs[k], nProjects, staff)
    {
      DefectRecordWellFormed(firstId + k, projectId, nProjects, staff, pool, processes, window, defects[k]);
    }
  }

  lemma ProjectDefectRecordsCounted(firstId: int, projectId: int, staff: seq<Employee>, pool: seq<int>,
                                    processes: seq<Process>, window: seq<nat>, defects: seq<DefectDraw>)
    requires NonLeadPool(pool, staff) && IsProcessTable(processes)
    requires forall i :: 0 <= i < |window| ==> window[i] < FACT_DAYS
    requires ValidDefectList(defects, |window|, |pool|)
    ensures var rs := ProjectDefectRecords(firstId, projectId, staff, pool, processes, window, defects);
            forall pid :: DefectCount(rs, pid) == if pid == projectId then |defects| else 0
  {
    var rs := ProjectDefectRecords(firstId, projectId, staff, pool, processes, window, defects);
    forall pid
      ensures DefectCount(rs, pid) == if pid == projectId then |defects| else 0
    {
      DefectCountOfOneProject(rs, projectId, pid);
    }
  }

  /** The inner loop `for i in range(N_defectos)` of one project; id_defecto
      is always one more than the number of defects generated so far. */
  method AppendProjectDefects(facts: seq<DefectRecord>, project: Project, staff: seq<Employee>, pool: seq<int>,
                              processes: seq<Process>, draws: ProjectDefectDraws)
    returns (out: seq<DefectRecord>)
    requires NonLeadPool(pool, staff) && IsProcessTable(processes)
    requires forall i :: 0 <= i < |draws.window| ==> draws.window[i] < FACT_DAYS
    requires |draws.defects| == PredictDefectsRayleigh(draws.poissonSample)
    requires ValidDefectList(draws.defects, |draws.window|, |pool|)
    ensures out == facts + ProjectDefectRecords(|facts| + 1, project.id, staff, pool, processes, draws.window, draws.defects)
  {
    var nDefects := PredictDefectsRayleigh(draws.poissonSample);
    ghost var want := ProjectDefectRecords(|facts| + 1, project.id, staff, pool, processes, draws.window, draws.defects);
    out := facts;
    var nextId := |facts| + 1;
    var i := 0;
    while i < nDefects
      invariant 0 <= i <= nDefects && nextId == |facts| + 1 + i
      invariant out == facts + want[..i]
    {
      var r := DefectRecordOf(nextId, project.id, staff, pool, processes, draws.window, draws.defects[i]);
      assert want[..i + 1] == want[..i] + [r];
      out := out + [r];
      nextId := nextId + 1;
      i := i + 1;
    }
    assert want[..i] == want;
  }

  /** Records numbered 1, 2, ... in order, each well formed. */
  predicate NumberedDefects(facts: seq<DefectRecord>, nProjects: int, staff: seq<Employee>) {
    forall k :: 0 <= k < |facts| ==> facts[k].id == k + 1 && WellFormedDefect(facts[k], nProjects, staff)
  }

  /** The defect table after the first p projects: numbered, well formed,
      and each of those projects has its N_defectos defects, the others none. */
  predicate DefectTableUpTo(facts: seq<DefectRecord>, projects: seq<Project>, staff: seq<Employee>,
                            draws: seq<ProjectDefectDraws>, p: int)
    requires |draws| == |projects|
  {
    && NumberedDefects(facts, |projects|, staff)
    && forall q :: 0 <= q < |projects| ==>
         DefectCount(facts, projects[q].id) == (if q < p then PredictDefectsRayleigh(draws[q].poissonSample) else 0)
  }

  /** Appending a block of well-formed defects numbered on from |before| + 1,
      all of project p and as many as its N_defectos, extends the table from
      the first p projects to the first p + 1. */
  lemma {:induction false} DefectTableExtend(before: seq<DefectRecord>, added: seq<DefectRecord>, projects: seq<Project>,
                                            staff: seq<Employee>, draws: seq<ProjectDefectDraws>, p: int)
    requires 0 <= p < |projects| == |draws|
    requires forall i :: 0 <= i < |projects| ==> projects[i].id == i + 1
    requires DefectTableUpTo(before, projects, staff, draws, p)
    requires forall k :: 0 <= k < |added| ==>
               added[k].id == |before| + 1 + k && WellFormedDefect(added[k], |projects|, staff)
    requires forall pid :: DefectCount(added, pid) ==
               if pid == projects[p].id then PredictDefectsRayleigh(draws[p].poissonSample) else 0
    ensures DefectTableUpTo(before + added, projects, staff, draws, p + 1)
  {
    var facts := before + added;
    forall k | 0 <= k < |facts|
      ensures facts[k].id == k + 1 && WellFormedDefect(facts[k], |projects|, staff)
    {
      if k < |before| {
        assert facts[k] == before[k];
      } else {
        assert facts[k] == added[k - |before|];
      }
    }
    forall q | 0 <= q < |projects|
      ensures DefectCount(facts, projects[q].id) ==
              (if q < p + 1 then PredictDefectsRayleigh(draws[q].poissonSample) else 0)
    {
      DefectCountAppend(before, added, projects[q].id);
    }
  }

  /** One iteration of the outer loop: appending the defects of project p
      extends the table from the first p projects to the first p + 1. */
  lemma DefectTableStep(before: seq<DefectRecord>, projects: seq<Project>, staff: seq<Employee>, pool: seq<int>,
                        processes: seq<Process>, draws: seq<ProjectDefectDraws>, p: int)
    requires NonLeadPool(pool, staff) && IsProcessTable(processes)
    requires 0 <= p < |projects| == |draws|
    requires forall i :: 0 <= i < |projects| ==> projects[i].id == i + 1
    requires ValidDefectDraws(projects[p].estimatedEffort, draws[p], |pool|)
    requires DefectTableUpTo(before, projects, staff, draws, p)
    ensures DefectTableUpTo(before + ProjectDefectRecords(|before| + 1, projects[p].id, staff, pool, processes,
                                                          draws[p].window, draws[p].defects),
                            projects, staff, draws, p + 1)
  {
    var d := draws[p];
    ProjectDefectRecordsFacts(|before| + 1, projects[p].id, |projects|, staff, pool, processes, d.window, d.defects);
    DefectTableExtend(before, ProjectDefectRecords(|before| + 1, projects[p].id, staff, pool, processes, d.window, d.defects),
                      projects, staff, draws, p);
  }

  /** Fact_Defectos_Calidad as the outer loop builds it: the defects of the
      projects in order, each block numbered on from the defects before it. */
  function DefectTable(projects: seq<Project>, staff: seq<Employee>, pool: seq<int>, processes: seq<Process>,
                       draws: seq<ProjectDefectDraws>): seq<DefectRecord>
    requires NonLeadPool(pool, staff) && IsProcessTable(processes)
    requires |draws| == |projects|
    requires forall p :: 0 <= p < |projects| ==> ValidDefectDraws(projects[p].estimatedEffort, draws[p], |pool|)
    decreases |projects|
  {
    if projects == [] then []
    else
      var n := |projects| - 1;
      var before := DefectTable(projects[..n], staff, pool, processes, draws[..n]);
      assert ValidDefectDraws(projects[n].estimatedEffort, draws[n], |pool|);
      before + ProjectDefectRecords(|before| + 1, projects[n].id, staff, pool, processes, draws[n].window, draws[n].defects)
  }

  /** The table of the first p + 1 projects is that of the first p followed
      by the defects of project p. */
  lemma DefectTableSnoc(projects: seq<Project>, staff: seq<Employee>, pool: seq<int>, processes: seq<Process>,
                        draws: seq<ProjectDefectDraws>, p: int)
    requires NonLeadPool(pool, staff) && IsProcessTable(processes)
    requires 0 <= p < |projects| == |draws|
    requires forall q :: 0 <= q < |projects| ==> ValidDefectDraws(projects[q].estimatedEffort, draws[q], |pool|)
    ensures var before := DefectTable(projects[..p], staff, pool, processes, draws[..p]);
            DefectTable(projects[..p + 1], staff, pool, processes, draws[..p + 1])
              == before + ProjectDefectRecords(|before| + 1, projects[p].id, staff, pool, processes,
                                               draws[p].window, draws[p].defects)
  {
    assert projects[..p + 1][..p] == projects[..p] && draws[..p + 1][..p] == draws[..p];
  }

  /** The loop over the projects of Dim_Proyecto generating N_defectos
      defects each, numbered 1, 2, ... across projects.
      np.random.choice(desarrolladores) raises on an empty pool, hence the
      requirement of a non-lead employee. */
  method BuildDefectFacts(projects: seq<Project>, staff: seq<Employee>, processes: seq<Process>,
                          draws: seq<ProjectDefectDraws>)
    returns (facts: seq<DefectRecord>)
    requires IsProcessTable(processes)
    requires forall i :: 0 <= i < |projects| ==> projects[i].id == i + 1
    requires DenseStaffIds(staff)
    requires |projects| > 0 ==> NonLeadIds(staff) != []
    requires |draws| == |projects|
    requires forall p :: 0 <= p < |projects| ==>
               ValidDefectDraws(projects[p].estimatedEffort, draws[p], |NonLeadIds(staff)|)
    ensures forall k :: 0 <= k < |facts| ==> facts[k].id == k + 1 && WellFormedDefect(facts[k], |projects|, staff)
    ensures forall p :: 0 <= p < |projects| ==>
              DefectCount(facts, projects[p].id) == PredictDefectsRayleigh(draws[p].poissonSample) >= MIN_DEFECTS
    ensures NonLeadPool(NonLeadIds(staff), staff) && facts == DefectTable(projects, staff, NonLeadIds(staff), processes, draws)
  {
    var pool := NonLeadIds(staff);
    NonLeadIdsArePool(staff);
    facts := [];
    var p := 0;
    while p < |projects|
      invariant 0 <= p <= |projects|
      invariant DefectTableUpTo(facts, projects, staff, draws, p)
      invariant facts == DefectTable(projects[..p], staff, pool, processes, draws[..p])
    {
      DefectTableStep(facts, projects, staff, pool, processes, draws, p);
      DefectTableSnoc(projects, staff, pool, processes, draws, p);
      facts := AppendProjectDefects(facts, projects[p], staff, pool, processes, draws[p]);
      p := p + 1;
    }
    assert projects[..p] == projects && draws[..p] == draws;
  }
}
