/** ProfileStore.java: the list of connection profiles kept as a JSON file,
    with passwords encrypted at rest. The file is modelled by what Gson reads
    from it; JSON text itself is not modelled. */
module ProfileStore {
  import opened Wrappers
  import opened ConnectionProfile
  import opened SecretsStore

  /** What Gson reads from the profiles file: `null` (an empty file reads so
      too), a list whose elements may be null, or text it rejects. */
  datatype Json =
    | JsonNull
    | JsonList(records: seq<Option<ProfileData>>)
    | Malformed(message: string)

  /** The state of the profiles file's parent directory when the store is
      created. */
  datatype ParentDir =
    | NoParent
    | Existing(isDirectory: bool)
    | Absent(mkdirsSucceeds: bool, isDirectoryAfter: bool)

  /** The constructor's check of the parent directory. */
  function OpenError(parent: ParentDir, parentPath: string): Option<Exception> {
    match parent
    case NoParent => None
    case Existing(isDirectory) =>
      if isDirectory then None else Some(IllegalState("Parent path is not a directory: " + parentPath))
    case Absent(created, isDirectoryAfter) =>
      if !created && !isDirectoryAfter then Some(IllegalState("Failed to create profiles directory: " + parentPath))
      else None
  }

  // ---------------------------------------------------------------------
  // Loading

  /** The decryption step of loadProfiles for one stored profile: a non-empty
      password is decrypted, anything else is kept. */
  function DecryptRecord(s: SecretsStore, p: ProfileData): Result<ProfileData> {
    if NonEmpty(p.password) then
      match Decrypt(s, p.password)
      case Failure(e) => Failure(e)
      case Success(plain) => Success(p.(password := plain))
    else Success(p)
  }

  /** The decryption loop of loadProfiles, in list order: a null element is a
      NullPointerException, and the first failure ends the loop. */
  function DecryptAll(s: SecretsStore, records: seq<Option<ProfileData>>): Result<seq<ProfileData>> {
    if records == [] then Success([])
    else
      match DecryptAll(s, records[..|records| - 1])
      case Failure(e) => Failure(e)
      case Success(done) =>
        match records[|records| - 1]
        case None => Failure(NullPointer)
        case Some(p) =>
          match DecryptRecord(s, p)
          case Failure(e) => Failure(e)
          case Success(q) => Success(done + [q])
  }

  /** loadProfiles, as a function of the file: no file and a `null` document
      are the empty list. */
  function Loaded(file: Option<Json>, s: SecretsStore): Result<seq<ProfileData>> {
    match file
    case None => Success([])
    case Some(JsonNull) => Success([])
    case Some(Malformed(message)) => Failure(JsonSyntax(message))
    case Some(JsonList(records)) => DecryptAll(s, records)
  }

  // ---------------------------------------------------------------------
  // Saving

  /** copyProfile: every field is copied, except that the JDBC URL becomes the
      one the profile resolves to, which fails when it cannot be derived. */
  function Copy(p: ProfileData): Result<ProfileData> {
    match JdbcUrl(p)
    case Failure(e) => Failure(e)
    case Success(url) => Success(p.(jdbcUrl := Some(url)))
  }

  function Copies(data: seq<ProfileData>): Result<seq<ProfileData>> {
    if data == [] then Success([])
    else
      match Copies(data[..|data| - 1])
      case Failure(e) => Failure(e)
      case Success(done) =>
        match Copy(data[|data| - 1])
        case Failure(e) => Failure(e)
        case Success(q) => Success(done + [q])
  }

  /** The encryption step of saveProfiles: a non-empty password is encrypted. */
  function EncryptRecord(s: SecretsStore, p: ProfileData): ProfileData {
    if NonEmpty(p.password) then p.(password := Encrypt(s, p.password)) else p
  }

  function EncryptAll(s: SecretsStore, data: seq<ProfileData>): (r: seq<ProfileData>)
    ensures |r| == |data|
    ensures forall i :: 0 <= i < |data| ==> r[i] == EncryptRecord(s, data[i])
  {
    if data == [] then [] else EncryptAll(s, data[..|data| - 1]) + [EncryptRecord(s, data[|data| - 1])]
  }

  /** The list Gson writes: every element present. */
  function Present(data: seq<ProfileData>): (r: seq<Option<ProfileData>>)
    ensures |r| == |data| && forall i :: 0 <= i < |data| ==> r[i] == Some(data[i])
  {
    if data == [] then [] else Present(data[..|data| - 1]) + [Some(data[|data| - 1])]
  }

  /** saveProfiles, as a function of the profiles: the document written, or
      the failure of a profile whose URL cannot be derived (then nothing is
      written). */
  function Saved(s: SecretsStore, data: seq<ProfileData>): Result<Json> {
    match Copies(data)
    case Failure(e) => Failure(e)
    case Success(copies) => Success(JsonList(Present(EncryptAll(s, copies))))
  }

  /** removeIf(p -> p.getName().equals(name)): a stored profile without a
      name is a NullPointerException; a null name matches nothing. */
  function RemoveNamed(data: seq<ProfileData>, name: Option<string>): Result<seq<ProfileData>> {
    if exists i :: 0 <= i < |data| && data[i].name.None? then Failure(NullPointer)
    else Success(Others(data, name))
  }

  /** The profiles not named `name`, in order. */
  function Others(data: seq<ProfileData>, name: Option<string>): seq<ProfileData> {
    if data == [] then []
    else
      var last := data[|data| - 1];
      Others(data[..|data| - 1], name) + (if name.Some? && last.name == name then [] else [last])
  }

  /** The profiles of one object list. */
  function Contents(ps: seq<ConnectionProfile>): (r: seq<ProfileData>)
    reads set p | p in ps
    ensures |r| == |ps| && forall i :: 0 <= i < |ps| ==> r[i] == ps[i].Data()
  {
    if ps == [] then [] else Contents(ps[..|ps| - 1]) + [ps[|ps| - 1].Data()]
  }

  // ---------------------------------------------------------------------
  // Properties

  /** A copy resolves to the same URL as its source, differs from it only in
      the URL field, and copying it again changes nothing. */
  lemma CopyKeepsUrl(p: ProfileData)
    requires Copy(p).Success?
    ensures JdbcUrl(Copy(p).value) == JdbcUrl(p)
    ensures Copy(p).value.(jdbcUrl := p.jdbcUrl) == p
    ensures Copy(Copy(p).value) == Copy(p)
  {
    assert JdbcUrl(p).value != [] by {
      if !NonEmpty(p.jdbcUrl) {
        assert JdbcUrl(p).value[..5] == "jdbc:";
      }
    }
  }

  /** Saving fails exactly when some profile's URL cannot be derived. */
  lemma {:induction false} CopiesFail(data: seq<ProfileData>)
    ensures Copies(data).Failure? <==> exists i :: 0 <= i < |data| && Copy(data[i]).Failure?
    ensures Copies(data).Success? ==>
      |Copies(data).value| == |data|
      && forall i :: 0 <= i < |data| ==> Copies(data).value[i] == Copy(data[i]).value
  {
    if data != [] {
      var init := data[..|data| - 1];
      CopiesFail(init);
      assert forall i :: 0 <= i < |init| ==> init[i] == data[i];
    }
  }

  /** Loading a list of encrypted copies gives the copies back: the password
      of every profile survives the encryption at rest. */
  lemma {:induction false} LoadEncrypted(s: SecretsStore, copies: seq<ProfileData>)
    requires Inverts(s.cipher)
    ensures DecryptAll(s, Present(EncryptAll(s, copies))) == Success(copies)
  {
    if copies != [] {
      var init := copies[..|copies| - 1];
      var last := copies[|copies| - 1];
      var stored := Present(EncryptAll(s, copies));
      LoadEncrypted(s, init);
      assert stored[..|stored| - 1] == Present(EncryptAll(s, init));
      DecryptEncrypt(s, last.password);
      assert copies == init + [last];
    }
  }

  /** The round trip of saveProfiles and loadProfiles: what is loaded is the
      saved profiles, each with its resolved URL stored explicitly, in the
      same order; so every field, the password included, and every URL read
      back as saved. */
  lemma SaveThenLoad(s: SecretsStore, data: seq<ProfileData>)
    requires Inverts(s.cipher)
    requires Saved(s, data).Success?
    ensures Loaded(Some(Saved(s, data).value), s) == Copies(data)
    ensures |Copies(data).value| == |data|
    ensures forall i :: 0 <= i < |data| ==>
      && Copies(data).value[i].(jdbcUrl := data[i].jdbcUrl) == data[i]
      && JdbcUrl(Copies(data).value[i]) == JdbcUrl(data[i])
  {
    LoadEncrypted(s, Copies(data).value);
    CopiesFail(data);
    forall i | 0 <= i < |data|
      ensures Copies(data).value[i].(jdbcUrl := data[i].jdbcUrl) == data[i]
      ensures JdbcUrl(Copies(data).value[i]) == JdbcUrl(data[i])
    {
      CopyKeepsUrl(data[i]);
    }
  }

  /** Whether removeIf(p -> p.getName().equals(name)) drops q. */
  predicate Removed(q: ProfileData, name: Option<string>) {
    name.Some? && q.name == name
  }

  /** kept lists data's profiles at the strictly increasing positions f, and
      those are exactly the positions of the profiles not removed: kept is
      data with the removed profiles taken out, order and repeats intact. */
  ghost predicate KeptInOrder(data: seq<ProfileData>, name: Option<string>, kept: seq<ProfileData>, f: seq<nat>) {
    && |f| == |kept|
    && (forall i :: 0 <= i < |f| ==> f[i] < |data| && kept[i] == data[f[i]] && !Removed(data[f[i]], name))
    && (forall i, j :: 0 <= i < j < |f| ==> f[i] < f[j])
    && (forall k :: 0 <= k < |data| && !Removed(data[k], name) ==> k in f)
  }

  /** Removal by name keeps exactly the profiles with another name; a null
      name removes nothing. */
  lemma {:induction false} OthersSpec(data: seq<ProfileData>, name: Option<string>)
    ensures forall q :: q in Others(data, name) ==> q in data && !Removed(q, name)
    ensures forall q :: q in data && !Removed(q, name) ==> q in Others(data, name)
    ensures name.None? ==> Others(data, name) == data
  {
    if name.None? {
      OthersUnchanged(data, name);
    }
    if data != [] {
      var n := |data| - 1;
      var init := data[..n];
      OthersSpec(init, name);
      assert data == init + [data[n]];
      assert Others(data, name) == Others(init, name) + (if Removed(data[n], name) then [] else [data[n]]);
    }
  }

  /** The kept profiles are in their original order, each as often as it
      was there. */
  lemma {:induction false} OthersInOrder(data: seq<ProfileData>, name: Option<string>)
    ensures exists f :: KeptInOrder(data, name, Others(data, name), f)
  {
    if data == [] {
      assert KeptInOrder(data, name, Others(data, name), []);
    } else {
      var n := |data| - 1;
      var init := data[..n];
      OthersInOrder(init, name);
      var f0 :| KeptInOrder(init, name, Others(init, name), f0);
      var f := OthersStep(data, name, f0);
    }
  }

  /** The order-keeping step for Others: the positions f0 of the kept
      profiles of all but the last profile extend to those of the whole list. */
  lemma OthersStep(data: seq<ProfileData>, name: Option<string>, f0: seq<nat>) returns (f: seq<nat>)
    requires data != [] && KeptInOrder(data[..|data| - 1], name, Others(data[..|data| - 1], name), f0)
    ensures KeptInOrder(data, name, Others(data, name), f)
  {
    var n := |data| - 1;
    var kept := Others(data[..n], name);
    if Removed(data[n], name) {
      assert Others(data, name) == kept;
      KeptDrop(data, name, kept, f0);
      f := f0;
    } else {
      assert Others(data, name) == kept + [data[n]];
      KeptKeep(data, name, kept, f0);
      f := f0 + [n];
    }
  }

  /** When no profile has the name, removal leaves the list as it is. */
  lemma {:induction false} OthersUnchanged(data: seq<ProfileData>, name: Option<string>)
    requires forall k :: 0 <= k < |data| ==> !Removed(data[k], name)
    ensures Others(data, name) == data
  {
    if data != [] {
      var init := data[..|data| - 1];
      assert forall k :: 0 <= k < |init| ==> init[k] == data[k];
      OthersUnchanged(init, name);
      assert data == init + [data[|data| - 1]];
    }
  }

  /** A removed last profile leaves the kept list and its positions as they
      were. */
  lemma KeptDrop(data: seq<ProfileData>, name: Option<string>, kept: seq<ProfileData>, f0: seq<nat>)
    requires data != [] && KeptInOrder(data[..|data| - 1], name, kept, f0)
    requires Removed(data[|data| - 1], name)
    ensures KeptInOrder(data, name, kept, f0)
  {
    var n := |data| - 1;
    var init := data[..n];
    forall i | 0 <= i < |f0|
      ensures f0[i] < |data| && kept[i] == data[f0[i]] && !Removed(data[f0[i]], name)
    {
      assert init[f0[i]] == data[f0[i]];
    }
    forall k | 0 <= k < |data| && !Removed(data[k], name)
      ensures k in f0
    {
      assert init[k] == data[k];
    }
  }

  /** A kept last profile is appended, at its own position. */
  lemma KeptKeep(data: seq<ProfileData>, name: Option<string>, kept: seq<ProfileData>, f0: seq<nat>)
    requires data != [] && KeptInOrder(data[..|data| - 1], name, kept, f0)
    requires !Removed(data[|data| - 1], name)
    ensures KeptInOrder(data, name, kept + [data[|data| - 1]], f0 + [|data| - 1])
  {
    var n := |data| - 1;
    var init := data[..n];
    var f := f0 + [n];
    var k' := kept + [data[n]];
    forall i | 0 <= i < |f|
      ensures f[i] < |data| && k'[i] == data[f[i]] && !Removed(data[f[i]], name)
    {
      if i < |f0| {
        assert f[i] == f0[i] && k'[i] == kept[i];
        assert init[f0[i]] == data[f0[i]];
      }
    }
    forall i, j | 0 <= i < j < |f|
      ensures f[i] < f[j]
    {
      if j < |f0| {
        assert f[i] == f0[i] && f[j] == f0[j];
      } else {
        assert f[i] == f0[i] && f0[i] < n;
      }
    }
    forall k | 0 <= k < |data| && !Removed(data[k], name)
      ensures k in f
    {
      if k < n {
        assert init[k] == data[k];
        assert k in f0;
      } else {
        assert f[|f| - 1] == n;
      }
    }
  }

  /** After adding, the list holds the new profile last and no other profile
      with its name: adding replaces a profile of the same name. */
  lemma AddReplaces(data: seq<ProfileData>, p: ProfileData)
    requires RemoveNamed(data, p.name).Success?
    ensures var added := RemoveNamed(data, p.name).value + [p];
      && added[|added| - 1] == p
      && (p.name.Some? ==> forall i :: 0 <= i < |added| - 1 ==> added[i].name != p.name)
      && (forall q :: q in data && q.name != p.name ==> q in added)
      && added[..|added| - 1] == RemoveNamed(data, p.name).value
    ensures exists f :: KeptInOrder(data, p.name, RemoveNamed(data, p.name).value, f)
  {
    OthersSpec(data, p.name);
    OthersInOrder(data, p.name);
    var added := RemoveNamed(data, p.name).value + [p];
    assert added[..|added| - 1] == Others(data, p.name);
    forall i | 0 <= i < |added| - 1
      ensures p.name.Some? ==> added[i].name != p.name
    {
      assert added[i] in Others(data, p.name);
    }
  }

  /** Loading decrypts each stored record in turn: it succeeds exactly when
      every element is non-null and decrypts, and then gives one profile per
      record, in order, with only the password decrypted; a null or empty
      password is kept as stored. */
  lemma {:induction false} DecryptAllSpec(s: SecretsStore, records: seq<Option<ProfileData>>)
    ensures DecryptAll(s, records).Success? <==>
      forall i :: 0 <= i < |records| ==> records[i].Some? && DecryptRecord(s, records[i].value).Success?
    ensures DecryptAll(s, records).Success? ==>
      var loaded := DecryptAll(s, records).value;
      && |loaded| == |records|
      && forall i :: 0 <= i < |records| ==>
           && loaded[i] == DecryptRecord(s, records[i].value).value
           && loaded[i] == records[i].value.(password := Decrypt(s, records[i].value.password).value)
           && (!NonEmpty(records[i].value.password) ==> loaded[i] == records[i].value)
  {
    if records != [] {
      var init := records[..|records| - 1];
      DecryptAllSpec(s, init);
      assert forall i :: 0 <= i < |init| ==> init[i] == records[i];
    }
  }

  /** The first failure of the decryption loop is the loop's failure. */
  lemma {:induction false} DecryptAllFailsEarly(s: SecretsStore, records: seq<Option<ProfileData>>, i: nat)
    requires i <= |records| && DecryptAll(s, records[..i]).Failure?
    ensures DecryptAll(s, records) == DecryptAll(s, records[..i])
    decreases |records| - i
  {
    if i < |records| {
      assert records[..i + 1][..i] == records[..i];
      DecryptAllFailsEarly(s, records, i + 1);
    } else {
      assert records[..i] == records;
    }
  }

  /** The first profile whose URL cannot be derived fails the whole save. */
  lemma {:induction false} CopiesFailEarly(data: seq<ProfileData>, i: nat)
    requires i <= |data| && Copies(data[..i]).Failure?
    ensures Copies(data) == Copies(data[..i])
    decreases |data| - i
  {
    if i < |data| {
      assert data[..i + 1][..i] == data[..i];
      CopiesFailEarly(data, i + 1);
    } else {
      assert data[..i] == data;
    }
  }

  /** The loop of loadProfiles over the stored list: a new profile object
      per element, holding that element with its password decrypted. */
  method DecryptRecords(secrets: SecretsStore, records: seq<Option<ProfileData>>)
      returns (r: Result<seq<ConnectionProfile>>)
    ensures DecryptAll(secrets, records).Failure? ==> r == Failure(DecryptAll(secrets, records).error)
    ensures DecryptAll(secrets, records).Success? ==>
      && r.Success? && Contents(r.value) == DecryptAll(secrets, records).value
      && (forall i :: 0 <= i < |r.value| ==> fresh(r.value[i]))
      && (forall i, j :: 0 <= i < j < |r.value| ==> r.value[i] != r.value[j])
  {
    var profiles: seq<ConnectionProfile> := [];
    ghost var data: seq<ProfileData> := [];
    var i := 0;
    while i < |records|
      invariant 0 <= i <= |records|
      invariant DecryptAll(secrets, records[..i]) == Success(data)
      invariant Contents(profiles) == data
      invariant forall k :: 0 <= k < |profiles| ==> fresh(profiles[k])
      invariant forall k, j :: 0 <= k < j < |profiles| ==> profiles[k] != profiles[j]
    {
      assert records[..i + 1][..i] == records[..i];
      if records[i].None? {
        DecryptAllFailsEarly(secrets, records, i + 1);
        return Failure(NullPointer);
      }
      var decrypted := DecryptRecord(secrets, records[i].value);
      if decrypted.Failure? {
        DecryptAllFailsEarly(secrets, records, i + 1);
        return Failure(decrypted.error);
      }
      var profile := new ConnectionProfile.FromData(decrypted.value);
      assert (profiles + [profile])[..|profiles|] == profiles;
      profiles := profiles + [profile];
      data := data + [decrypted.value];
      i := i + 1;
    }
    assert records[..i] == records;
    r := Success(profiles);
  }

  // ---------------------------------------------------------------------
  // The store

  class ProfileStore {
    /** The profiles file: None while it does not exist. */
    var file: Option<Json>
    const secrets: SecretsStore

    constructor Create(file: Option<Json>, secrets: SecretsStore)
      ensures this.file == file && this.secrets == secrets
    {
      this.file := file;
      this.secrets := secrets;
    }

    /** new ProfileStore(path): fails when the parent path is not a directory
        and cannot be made one. */
    static method Open(parent: ParentDir, parentPath: string, file: Option<Json>, secrets: SecretsStore)
        returns (r: Result<ProfileStore>)
      ensures OpenError(parent, parentPath).Some? ==> r == Failure(OpenError(parent, parentPath).value)
      ensures OpenError(parent, parentPath).None? ==>
        r.Success? && fresh(r.value) && r.value.file == file && r.value.secrets == secrets
    {
      var err := OpenError(parent, parentPath);
      if err.Some? {
        return Failure(err.value);
      }
      var store := new ProfileStore.Create(file, secrets);
      r := Success(store);
    }

    /** loadProfiles(): new profile objects holding the stored profiles with
        their passwords decrypted. */
    method LoadProfiles() returns (r: Result<seq<ConnectionProfile>>)
      ensures Loaded(file, secrets).Failure? ==> r == Failure(Loaded(file, secrets).error)
      ensures Loaded(file, secrets).Success? ==>
        && r.Success? && Contents(r.value) == Loaded(file, secrets).value
        && (forall i :: 0 <= i < |r.value| ==> fresh(r.value[i]))
        && (forall i, j :: 0 <= i < j < |r.value| ==> r.value[i] != r.value[j])
    {
      if file.None? || file.value.JsonNull? {
        return Success([]);
      }
      if file.value.Malformed? {
        return Failure(JsonSyntax(file.value.message));
      }
      r := DecryptRecords(secrets, file.value.records);
    }

    /** saveProfiles(profiles): the file is replaced by the encrypted copies;
        when a profile's URL cannot be derived nothing is written. */
    method SaveProfiles(profiles: seq<ConnectionProfile>) returns (r: Outcome)
      modifies this`file
      ensures Saved(secrets, Contents(profiles)).Failure? ==>
        r == Fail(Saved(secrets, Contents(profiles)).error) && file == old(file)
      ensures Saved(secrets, Contents(profiles)).Success? ==>
        r == Pass && file == Some(Saved(secrets, Contents(profiles)).value)
    {
      r := Write(Contents(profiles));
    }

    /** The copy-and-encrypt loop of saveProfiles, and the write. */
    method Write(data: seq<ProfileData>) returns (r: Outcome)
      modifies this`file
      ensures Saved(secrets, data).Failure? ==> r == Fail(Saved(secrets, data).error) && file == old(file)
      ensures Saved(secrets, data).Success? ==> r == Pass && file == Some(Saved(secrets, data).value)
    {
      var encrypted: seq<ProfileData> := [];
      ghost var copies: seq<ProfileData> := [];
      var i := 0;
      while i < |data|
        invariant 0 <= i <= |data|
        invariant Copies(data[..i]) == Success(copies)
        invariant encrypted == EncryptAll(secrets, copies)
      {
        assert data[..i + 1][..i] == data[..i];
        var copy := Copy(data[i]);
        if copy.Failure? {
          CopiesFailEarly(data, i + 1);
          return Fail(copy.error);
        }
        encrypted := encrypted + [EncryptRecord(secrets, copy.value)];
        copies := copies + [copy.value];
        i := i + 1;
      }
      assert data[..i] == data;
      file := Some(JsonList(Present(encrypted)));
      r := Pass;
    }

    /** addProfile(profile): the stored profile of the same name, if any, is
        replaced by this one, which goes last. */
    method AddProfile(profile: ConnectionProfile) returns (r: Outcome)
      modifies this`file
      ensures var loaded := Loaded(old(file), secrets);
        && (loaded.Failure? ==> r == Fail(loaded.error) && file == old(file))
        && (loaded.Success? ==> StoreEffect(RemoveNamed(loaded.value, profile.name), [profile.Data()], r, old(file)))
    {
      var loaded := LoadProfiles();
      if loaded.Failure? {
        return Fail(loaded.error);
      }
      var kept := RemoveNamed(Contents(loaded.value), profile.name);
      if kept.Failure? {
        return Fail(kept.error);
      }
      r := Write(kept.value + [profile.Data()]);
    }

    /** deleteProfile(name): every stored profile of that name is removed. */
    method DeleteProfile(name: Option<string>) returns (r: Outcome)
      modifies this`file
      ensures var loaded := Loaded(old(file), secrets);
        && (loaded.Failure? ==> r == Fail(loaded.error) && file == old(file))
        && (loaded.Success? ==> StoreEffect(RemoveNamed(loaded.value, name), [], r, old(file)))
    {
      var loaded := LoadProfiles();
      if loaded.Failure? {
        return Fail(loaded.error);
      }
      var kept := RemoveNamed(Contents(loaded.value), name);
      if kept.Failure? {
        return Fail(kept.error);
      }
      assert kept.value + [] == kept.value;
      r := Write(kept.value);
    }

    /** The outcome of removing and then saving `added` after the kept ones. */
    ghost predicate StoreEffect(kept: Result<seq<ProfileData>>, added: seq<ProfileData>, r: Outcome, before: Option<Json>)
      reads this
    {
      match kept
      case Failure(e) => r == Fail(e) && file == before
      case Success(others) =>
        var saved := Saved(secrets, others + added);
        && (saved.Failure? ==> r == Fail(saved.error) && file == before)
        && (saved.Success? ==> r == Pass && file == Some(saved.value))
    }
  }
}
