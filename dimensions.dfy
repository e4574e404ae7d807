/** The warehouse schema (the seven tables simulacion_dwh.py writes) and the
    dimensions that are computed column by column: Dim_Tiempo, Dim_Cliente,
    Dim_Empleado and Dim_Proceso_Interno. Hours are kept in hundredths and
    money in centavos, the two decimals the generator rounds to. */
module Dimensions {
  import opened Calendar
  import opened Text

  const N_EMPLEADOS := 10
  const N_CLIENTES := 8

  /** HORIZONTE_DIMENSION: 2024-01-01 .. 2025-02-28 (366 + 31 + 28 days). */
  const DIMENSION_DAYS := 425
  /** HORIZONTE_TIEMPO: 2024-01-01 .. 2024-12-31, the days facts are dated in. */
  const FACT_DAYS := 366

  // ---------------------------------------------------------------------
  // Schema

  datatype TimeRow = TimeRow(key: int, date: Date, quarter: int, year: int, isBusinessDay: bool)

  datatype Sector = Finanzas | Retail | Salud | Tecnologia | Educacion
  datatype ContractType = PrecioFijo | TiempoYMateriales | Suscripcion
  datatype Client = Client(id: int, name: string, sector: Sector, contract: ContractType)

  datatype Role = LiderDeProyecto | DesarrolladorSenior | DesarrolladorMid | DesarrolladorJunior | TesterQA
  datatype Seniority = Senior | Mid | Junior
  datatype Team = Alpha | Beta | Gamma
  datatype Employee = Employee(id: int, name: string, role: Role, seniority: Seniority, hourlyRate: int, team: Team)

  datatype Phase = Analisis | Diseno | Implementacion | Pruebas | Despliegue
  datatype Process = Process(id: int, name: string, phase: Phase, compliance: string, docLink: string)

  datatype Status = Entregado | Activo
  datatype DevType = Web | Mobile | Integracion
  datatype Project = Project(id: int, clientId: int, name: string, status: Status,
                             estimatedEffort: int, budgetCents: int, devType: DevType, maturity: int)

  /** A row of Fact_Trazabilidad_Esfuerzo (horas_estimadas_fase and
      varianza_esfuerzo are always NaN and are not modelled). */
  datatype EffortRecord = EffortRecord(id: int, projectId: int, timeKey: int, employeeId: int,
                                       processId: int, hoursCenti: int, costCents: int)

  datatype Severity = Bloqueador | Grave | Menor | Leve

  /** A row of Fact_Defectos_Calidad. */
  datatype DefectRecord = DefectRecord(id: int, projectId: int, reportKey: int, closeKey: int,
                                       responsibleId: int, processId: int, severity: Severity,
                                       netHoursCenti: int, closeVariance: int, defectCount: int)

  // ---------------------------------------------------------------------
  // Dim_Tiempo

  function TimeRowOf(d: Date): TimeRow
    requires ValidDate(d)
  {
    var weekday := DayOfWeek(d);
    TimeRow(DateKey(d), d, Quarter(d.month), d.year, weekday != 5 && weekday != 6)
  }

  /** One row per day of HORIZONTE_DIMENSION. */
  function TimeDimension(): (rows: seq<TimeRow>)
    ensures |rows| == DIMENSION_DAYS
    ensures forall i :: 0 <= i < |rows| ==> rows[i].key == HorizonKey(i)
  {
    seq(DIMENSION_DAYS, i requires 0 <= i < DIMENSION_DAYS => TimeRowOf(HorizonDate(i)))
  }

  /** A key that some row of Dim_Tiempo carries. */
  predicate IsTimeKey(k: int) {
    exists i :: 0 <= i < DIMENSION_DAYS && HorizonKey(i) == k
  }

  /** id_tiempo is strictly increasing with the date, hence unique. */
  lemma TimeKeysStrictlyIncreasing(i: int, j: int)
    requires 0 <= i < j < DIMENSION_DAYS
    ensures TimeDimension()[i].key < TimeDimension()[j].key
  {
    HorizonKeysIncreasing(i, j);
  }

  /** id_tiempo decodes back to the row's own calendar date. */
  lemma TimeKeyDecodes(i: int)
    requires 0 <= i < DIMENSION_DAYS
    ensures DecodeKey(TimeDimension()[i].key) == TimeDimension()[i].date
  {
    DateKeyRoundTrip(HorizonDate(i));
  }

  /** es_laboral follows the week that starts on Monday 2024-01-01: false
      exactly on the Saturdays and Sundays, rows 5 and 6 of every seven. */
  lemma BusinessDaysFollowTheWeek(i: int)
    requires 0 <= i < DIMENSION_DAYS
    ensures TimeDimension()[i].isBusinessDay <==> i % 7 < 5
  {
    HorizonWeekday(i);
  }

  /** trimestre_num is 1..4 and contains the row's month. */
  lemma QuarterContainsMonth(i: int)
    requires 0 <= i < DIMENSION_DAYS
    ensures 1 <= TimeDimension()[i].quarter <= 4
    ensures 3 * TimeDimension()[i].quarter - 2 <= TimeDimension()[i].date.month <= 3 * TimeDimension()[i].quarter
  {
    QuarterOfMonth(HorizonDate(i).month);
  }

  /** The dimension runs from 2024-01-01 to 2025-02-28; its first 366 rows
      are the year 2024 and the rest are 2025. */
  lemma TimeDimensionSpan(i: int)
    requires 0 <= i < DIMENSION_DAYS
    ensures TimeDimension()[0].date == Date(2024, 1, 1)
    ensures TimeDimension()[DIMENSION_DAYS - 1].date == Date(2025, 2, 28)
    ensures TimeDimension()[i].year == (if i < FACT_DAYS then 2024 else 2025)
  {
    HorizonLandmarks();
    if i < FACT_DAYS {
      HorizonYear2024(i);
    } else {
      if i > FACT_DAYS {
        HorizonKeysIncreasing(FACT_DAYS, i);
      }
      if i < DIMENSION_DAYS - 1 {
        HorizonKeysIncreasing(i, DIMENSION_DAYS - 1);
      }
      var d := HorizonDate(i);
      assert 101 <= d.month * 100 + d.day <= 1231;
    }
  }

  // ---------------------------------------------------------------------
  // Dim_Cliente

  /** The sampled columns of one client row (np.random.choice per row). */
  datatype ClientDraw = ClientDraw(sector: Sector, contract: ContractType)

  /** id_cliente runs 1, 2, ..., n in row order. */
  predicate DenseClientIds(clients: seq<Client>) {
    forall i :: 0 <= i < |clients| ==> clients[i].id == i + 1
  }

  function ClientDimension(draws: seq<ClientDraw>): (clients: seq<Client>)
    requires |draws| == N_CLIENTES
    ensures |clients| == N_CLIENTES && DenseClientIds(clients)
    ensures forall i :: 0 <= i < |clients| ==>
              clients[i].sector == draws[i].sector && clients[i].contract == draws[i].contract
  {
    seq(N_CLIENTES, i requires 0 <= i < N_CLIENTES =>
      Client(i + 1, "Cliente_" + DecimalString(i + 1), draws[i].sector, draws[i].contract))
  }

  /** Client names are distinct, so grouping by name separates clients. */
  lemma ClientNamesDistinct(draws: seq<ClientDraw>, i: int, j: int)
    requires |draws| == N_CLIENTES
    requires 0 <= i < j < N_CLIENTES
    ensures ClientDimension(draws)[i].name != ClientDimension(draws)[j].name
  {
    if ClientDimension(draws)[i].name == ClientDimension(draws)[j].name {
      LabelInjective("Cliente_", i + 1, j + 1);
    }
  }

  // ---------------------------------------------------------------------
  // Dim_Empleado

  const ROLES: seq<Role> := [LiderDeProyecto, DesarrolladorSenior, DesarrolladorMid, DesarrolladorJunior, TesterQA]

  /** salarios: hourly base cost in MXN by role. */
  const SALARIOS: map<Role, int> := map[
    DesarrolladorJunior := 250,
    DesarrolladorMid := 400,
    DesarrolladorSenior := 600,
    LiderDeProyecto := 700,
    TesterQA := 350]

  /** Every role of the vocabulary has a salary, so salario_hora_base is
      never NaN, and every salary is positive. */
  lemma EveryRoleHasSalary(r: Role)
    ensures r in SALARIOS && SALARIOS[r] > 0
    ensures r in ROLES
  {
    match r
    case LiderDeProyecto =>
    case DesarrolladorSenior =>
    case DesarrolladorMid =>
    case DesarrolladorJunior =>
    case TesterQA =>
  }

  datatype EmployeeDraw = EmployeeDraw(role: Role, seniority: Seniority, team: Team)

  /** id_empleado runs 1, 2, ..., n in row order. */
  predicate DenseStaffIds(staff: seq<Employee>) {
    forall i :: 0 <= i < |staff| ==> staff[i].id == i + 1
  }

  function HourlyRate(role: Role): (rate: int)
    ensures role in SALARIOS && rate == SALARIOS[role] && rate > 0
  {
    EveryRoleHasSalary(role);
    SALARIOS[role]
  }

  function EmployeeDimension(draws: seq<EmployeeDraw>): (staff: seq<Employee>)
    requires |draws| == N_EMPLEADOS
    ensures |staff| == N_EMPLEADOS && DenseStaffIds(staff)
    ensures forall i :: 0 <= i < |staff| ==>
              staff[i].role == draws[i].role &&
              staff[i].role in SALARIOS && staff[i].hourlyRate == SALARIOS[staff[i].role]
  {
    seq(N_EMPLEADOS, i requires 0 <= i < N_EMPLEADOS =>
      Employee(i + 1, "Empleado_" + DecimalString(i + 1), draws[i].role, draws[i].seniority,
               HourlyRate(draws[i].role), draws[i].team))
  }

  /** df_empleado[df_empleado['id_empleado'] == id]['salario_hora_base'].iloc[0]:
      the rate of the first employee carrying that id, if any. */
  function RateOf(staff: seq<Employee>, id: int): (rate: Option<int>)
    ensures rate.Some? <==> exists i :: 0 <= i < |staff| && staff[i].id == id
    ensures rate.Some? ==> exists i :: 0 <= i < |staff| && staff[i].id == id && staff[i].hourlyRate == rate.value
    ensures rate.Some? ==> exists i :: 0 <= i < |staff| && staff[i].id == id && staff[i].hourlyRate == rate.value &&
                                       forall j :: 0 <= j < i ==> staff[j].id != id
  {
    if staff == [] then None
    else if staff[0].id == id then Some(staff[0].hourlyRate)
    else
      var rest := RateOf(staff[1..], id);
      assert forall i :: 1 <= i < |staff| ==> staff[i] == staff[1..][i - 1];
      if rest.Some? then
        var i :| 0 <= i < |staff[1..]| && staff[1..][i].id == id && staff[1..][i].hourlyRate == rest.value &&
                 forall j :: 0 <= j < i ==> staff[1..][j].id != id;
        assert forall j :: 0 <= j < i + 1 ==> staff[j].id != id;
        rest
      else rest
  }

  datatype Option<T> = None | Some(value: T)

  /** In a dimension with dense ids the lookup finds row id - 1. */
  lemma RateOfDense(staff: seq<Employee>, id: int)
    requires DenseStaffIds(staff)
    requires 1 <= id <= |staff|
    ensures RateOf(staff, id) == Some(staff[id - 1].hourlyRate)
  {
    var r := RateOf(staff, id);
    assert staff[id - 1].id == id;
    var i :| 0 <= i < |staff| && staff[i].id == id && staff[i].hourlyRate == r.value;
  }

  // ---------------------------------------------------------------------
  // Dim_Proceso_Interno

  const DOCS_PREFIX := "http://docs.empresa.com/"

  function ProcessRow(id: int, name: string, phase: Phase): Process {
    Process(id, name, phase, "Obligatorio", DOCS_PREFIX + ReplaceAll(name, " ", "_"))
  }

  const N_PROCESOS := 7

  /** procesos_data: id, name and SDLC phase of the seven processes. */
  const PROCESOS_DATA: seq<(int, string, Phase)> := [
    (1, "Definición de Requisitos", Analisis),
    (2, "Diseño de Arquitectura", Diseno),
    (3, "Desarrollo Backend", Implementacion),
    (4, "Desarrollo Frontend", Implementacion),
    (5, "Revisión de Código", Pruebas),
    (6, "Pruebas QA (Funcionales)", Pruebas),
    (7, "Despliegue en Producción", Despliegue)]

  /** A Dim_Proceso table as the fact loops see it: seven rows with ids 1..7. */
  predicate IsProcessTable(processes: seq<Process>) {
    |processes| == N_PROCESOS && forall i :: 0 <= i < |processes| ==> processes[i].id == i + 1
  }

  function ProcessDimension(): (processes: seq<Process>)
    ensures IsProcessTable(processes)
    ensures forall i :: 0 <= i < |processes| ==> processes[i].compliance == "Obligatorio"
  {
    assert forall i :: 0 <= i < N_PROCESOS ==> PROCESOS_DATA[i].0 == i + 1;
    seq(N_PROCESOS, i requires 0 <= i < N_PROCESOS =>
      ProcessRow(PROCESOS_DATA[i].0, PROCESOS_DATA[i].1, PROCESOS_DATA[i].2))
  }

  /** documentacion_link is the docs prefix followed by the process name
      with its spaces turned into underscores. */
  lemma DocLinksHaveNoSpaces(i: int)
    requires 0 <= i < N_PROCESOS
    ensures var p := ProcessDimension()[i];
            |p.docLink| == |DOCS_PREFIX| + |p.name| &&
            p.docLink[..|DOCS_PREFIX|] == DOCS_PREFIX &&
            (forall k :: 0 <= k < |p.name| ==>
               p.docLink[|DOCS_PREFIX| + k] == (if p.name[k] == ' ' then '_' else p.name[k])) &&
            forall k :: |DOCS_PREFIX| <= k < |p.docLink| ==> p.docLink[k] != ' '
  {
    var p := ProcessDimension()[i];
    ReplaceCharRemovesIt(p.name, ' ', '_');
  }
}
