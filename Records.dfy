/** The model record, the creation/update form, the id-keyed store and the router's error outcomes. */
module ModelRecords {
  import opened Json

  type Meta = map<string, Value>

  /** One row of the model table. `accessControl` is `None` for a private model. */
  datatype Model = Model(
    id: string,
    userId: string,
    baseModelId: Option<string>,
    name: string,
    params: map<string, Value>,
    meta: Meta,
    accessControl: Option<Value>,
    isActive: bool)

  /** The body of the create and update requests. */
  datatype ModelForm = ModelForm(
    id: string,
    baseModelId: Option<string>,
    name: string,
    params: map<string, Value>,
    meta: Meta,
    accessControl: Option<Value>,
    isActive: bool)

  /** The storage collaborator's table: records keyed by their id. */
  type Store = map<string, Model>

  /** The error responses of the router, one per distinct failure (HTTP status codes are left out). */
  datatype Error =
    | NotFound       // no record with the requested id
    | Unauthorized   // the role, permission or write check failed
    | IdTaken        // create: a record with the form's id exists
    | Prohibited     // update: neither admin, owner nor write-granted
    | UpdateFailed   // toggle: storage did not return the toggled record
    | CreateFailed   // create: storage did not return the inserted record
    | MergeFailed    // bulk update: the merge raised (missing key, non-list value, unhashable element)

  /** Every record is stored under its own id. */
  ghost predicate WellKeyed(s: Store) {
    forall id :: id in s ==> s[id].id == id
  }

  /** The record that inserting `form` on behalf of `owner` creates. */
  function FromForm(form: ModelForm, owner: string): Model {
    Model(form.id, owner, form.baseModelId, form.name, form.params, form.meta, form.accessControl, form.isActive)
  }

  /** The record after `form` replaces its mutable fields; id and owner are kept. */
  function Replaced(m: Model, form: ModelForm): Model {
    m.(baseModelId := form.baseModelId, name := form.name, params := form.params, meta := form.meta,
       accessControl := form.accessControl, isActive := form.isActive)
  }
}
