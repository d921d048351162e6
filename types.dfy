/**
 * The exam record model: the trend and category enumerations, one lab test's
 * comparison entry across two collection dates, the bundle a document analysis
 * produces, and one chat message.
 */
module Types {

  datatype Option<T> = None | Some(value: T)

  /** Improvement classification supplied by the data source. */
  datatype Trend = Improved | Worsened | Stable | Unknown

  const AllTrends: seq<Trend> := [Improved, Worsened, Stable, Unknown]

  /** The wire value of each trend (the enum's string initialiser): a non-empty upper-case word. */
  function TrendName(t: Trend): (r: string)
    ensures r != []
    ensures forall i :: 0 <= i < |r| ==> 'A' <= r[i] <= 'Z'
  {
    match t
    case Improved => "IMPROVED"
    case Worsened => "WORSENED"
    case Stable => "STABLE"
    case Unknown => "UNKNOWN"
  }

  /** Exactly four trends, listed once each in declaration order, with distinct names. */
  lemma TrendIsFourValued()
    ensures |AllTrends| == 4
    ensures forall t: Trend :: t in AllTrends
    ensures forall i, j :: 0 <= i < j < |AllTrends| ==> AllTrends[i] != AllTrends[j]
    ensures forall t, u :: TrendName(t) == TrendName(u) ==> t == u
  {
    forall t: Trend ensures t in AllTrends {
      match t
      case Improved => assert AllTrends[0] == t;
      case Worsened => assert AllTrends[1] == t;
      case Stable => assert AllTrends[2] == t;
      case Unknown => assert AllTrends[3] == t;
    }
  }

  datatype Category =
    | Lipid | Liver | Metabolic | Muscle | Inflammation | Renal | Electrolytes | Hematology | Urine

  /** `Object.values(Category)`: the categories in declaration order. */
  const AllCategories: seq<Category> :=
    [Lipid, Liver, Metabolic, Muscle, Inflammation, Renal, Electrolytes, Hematology, Urine]

  /** The Portuguese label each category carries; it is also the category's runtime value. */
  function Label(c: Category): (r: string)
    ensures r != [] && r != "Todos"
  {
    match c
    case Lipid => "Lipídios"
    case Liver => "Fígado"
    case Metabolic => "Metabolismo"
    case Muscle => "Músculos"
    case Inflammation => "Inflamação"
    case Renal => "Rins"
    case Electrolytes => "Eletrólitos"
    case Hematology => "Sangue/Ferro"
    case Urine => "Urina"
  }

  /** Nine categories, each listed once, with nine distinct labels. */
  lemma CategoryIsNineValued()
    ensures |AllCategories| == 9
    ensures forall c: Category :: c in AllCategories
    ensures forall i, j :: 0 <= i < j < |AllCategories| ==> AllCategories[i] != AllCategories[j]
    ensures forall c, d :: Label(c) == Label(d) ==> c == d
  {
    forall c: Category ensures c in AllCategories {
      assert AllCategories[IndexOf(c)] == c;
    }
  }

  /** The position of a category in declaration order. */
  function IndexOf(c: Category): (i: nat)
    ensures i < |AllCategories| && AllCategories[i] == c
  {
    match c
    case Lipid => 0
    case Liver => 1
    case Metabolic => 2
    case Muscle => 3
    case Inflammation => 4
    case Renal => 5
    case Electrolytes => 6
    case Hematology => 7
    case Urine => 8
  }

  /** One observation value: `number | string | null`. */
  datatype ObsValue = Numeric(n: real) | Qualitative(text: string) | Missing

  /**
   * One lab test compared across two dates. Each slot has its own date, value and
   * status; the status strings are always present, even when the value is absent.
   */
  datatype ExamDataPoint = ExamDataPoint(
    id: string,
    name: string,
    unit: string,
    reference: string,
    date1: Option<string>,
    value1: ObsValue,
    status1: string,
    date2: Option<string>,
    value2: ObsValue,
    status2: string,
    observation: string,
    category: Category,
    trend: Trend)

  datatype AnalysisResult = AnalysisResult(
    goodNews: seq<string>,
    attentionPoints: seq<string>,
    examData: seq<ExamDataPoint>)

  datatype Role = User | Model

  function RoleName(r: Role): (s: string)
    ensures s == "user" || s == "model"
  {
    match r
    case User => "user"
    case Model => "model"
  }

  /** `role` is `'user'` exactly for the user and `'model'` exactly for the model. */
  lemma RoleIsTwoValued(r: Role)
    ensures RoleName(r) == "user" <==> r == User
    ensures RoleName(r) == "model" <==> r == Model
  {
  }

  /** A chat message; its creation timestamp is not part of this model. */
  datatype ChatMessage = ChatMessage(id: string, role: Role, text: string)
}
