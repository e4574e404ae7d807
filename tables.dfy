/** The table each CSV file is loaded into by migrar_a_sqlite.py: the name
    given by nombres_tablas when the file is listed there, otherwise the file
    name with every '.csv' removed (Python's str.replace). */
module TableNames {
  import opened Text

  /** archivos: the seven CSV files loaded, in load order. */
  const ARCHIVOS: seq<string> := [
    "Dim_Tiempo.csv", "Dim_Cliente.csv", "Dim_Empleado.csv", "Dim_Proceso_Interno.csv",
    "Dim_Proyecto.csv", "Fact_Trazabilidad_Esfuerzo_BASE.csv", "Fact_Defectos_Calidad.csv"
  ]

  /** nombres_tablas: the one file whose table is named differently. */
  const NOMBRES_TABLAS: map<string, string> :=
    map["Fact_Trazabilidad_Esfuerzo_BASE.csv" := "Fact_Trazabilidad_Esfuerzo"]

  const CSV := ".csv"

  /** The seven tables of the SQLite database, in load order. */
  const TABLAS: seq<string> := [
    "Dim_Tiempo", "Dim_Cliente", "Dim_Empleado", "Dim_Proceso_Interno",
    "Dim_Proyecto", "Fact_Trazabilidad_Esfuerzo", "Fact_Defectos_Calidad"
  ]

  /** nombres_tablas.get(archivo, archivo.replace('.csv', '')). */
  function TableName(file: string): string {
    if file in NOMBRES_TABLAS then NOMBRES_TABLAS[file] else ReplaceAll(file, CSV, "")
  }

  predicate NoDot(stem: string) {
    forall i :: 0 <= i < |stem| ==> stem[i] != '.'
  }

  /** A file named stem + '.csv', with no '.' in the stem and not renamed by
      nombres_tablas, is loaded into the table named stem. */
  lemma TableNameOfStem(stem: string)
    requires NoDot(stem)
    requires stem + CSV !in NOMBRES_TABLAS
    ensures TableName(stem + CSV) == stem
  {
    forall i | 0 <= i < |stem|
      ensures !OccursAt(stem + CSV, CSV, i)
    {
      assert (stem + CSV)[i] == stem[i];
    }
    RemoveOnlySuffix(stem, CSV);
  }

  /** Every file but the renamed one is its table's name plus '.csv'. */
  lemma StemFile(i: int)
    requires 0 <= i < |ARCHIVOS| && i != 5
    ensures TableName(ARCHIVOS[i]) == TABLAS[i]
  {
    var stem := TABLAS[i];
    assert NoDot(stem);
    assert stem + CSV == ARCHIVOS[i];
    assert |stem + CSV| != 35;
    TableNameOfStem(stem);
  }

  /** The effort fact file is loaded into Fact_Trazabilidad_Esfuerzo,
      without the _BASE of its file name; every other file into the table
      named by its file name without '.csv'. */
  lemma {:induction false} ArchiveTables()
    ensures |ARCHIVOS| == |TABLAS|
    ensures forall i :: 0 <= i < |ARCHIVOS| ==> TableName(ARCHIVOS[i]) == TABLAS[i]
  {
    forall i | 0 <= i < |ARCHIVOS| && i != 5
      ensures TableName(ARCHIVOS[i]) == TABLAS[i]
    {
      StemFile(i);
    }
    assert ARCHIVOS[5] in NOMBRES_TABLAS;
  }

  /** No two files are loaded into the same table, so if_exists='replace'
      never overwrites a table loaded earlier in the run. */
  lemma TablesDistinct()
    ensures forall i, j :: 0 <= i < j < |TABLAS| ==> TABLAS[i] != TABLAS[j]
  {
    assert TABLAS[2][4] != TABLAS[4][4];
  }
}
