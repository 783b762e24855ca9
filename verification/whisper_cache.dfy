/** The shared model cache of the speech-to-text server (`WhisperService`):
    a dictionary from model name to loaded model, filled lazily, restricted to
    five model names, and cleared on request; plus the decoding options it
    passes to the model for streaming and one-shot transcription. */
module WhisperCache {
  import opened Wrappers
  import Text
  import opened Files

  /** The model names the service accepts, from fastest to most accurate. */
  const AvailableModels: seq<string> := ["tiny", "base", "small", "medium", "large"]

  /** The name used when none is given. */
  const DefaultModel: string := "base"

  datatype Device = Cuda | Cpu

  /** The service runs on the GPU when one is available. */
  function DeviceFor(cudaAvailable: bool): Device
  {
    if cudaAvailable then Cuda else Cpu
  }

  /** An opaque loaded model: which name and device it was loaded for, and which
      load produced it (two loads of the same name are different objects). */
  datatype Model = Model(name: string, device: Device, instance: nat)

  /** `whisper.load_model(name, device=...)`, which may raise. */
  type Loader = (string, Device) -> Result<Model>

  /** One decoding option passed to `model.transcribe` as a keyword argument. */
  datatype OptionValue = BoolOpt(b: bool) | IntOpt(i: int) | StrOpt(s: string)

  type Options = map<string, OptionValue>

  /** `model.transcribe(audio, **options)`; its success value is the `text` entry
      of the result dictionary. */
  type Inference = (Model, Bytes, Options) -> Result<string>

  datatype Service = Service(models: map<string, Model>, device: Device)

  /** Only names from the fixed list are ever cached. */
  predicate Valid(s: Service)
  {
    forall k :: k in s.models ==> k in AvailableModels
  }

  /** The text of the `ValueError` raised for an unknown model name. */
  function NotAvailableMessage(name: string): string
  {
    "Model '" + name + "' not available. Choose from: " + Text.Join(AvailableModels, ", ")
  }

  /** The cache after a `_load_model` call, and the model returned or the error raised. */
  datatype Load = Load(service: Service, model: Result<Model>)

  /** `_load_model`: rejects unknown names, returns a cached model without
      loading, and otherwise loads and caches the model; a failed load is
      re-raised and leaves the cache as it was. There is no lock: the check and
      the insertion are one atomic step here. */
  function LoadModel(s: Service, name: string, load: Loader): (r: Load)
    ensures name !in AvailableModels ==> r == Load(s, Failure(NotAvailableMessage(name)))
    ensures r.model.Failure? <==>
              name !in AvailableModels || (name !in s.models && load(name, s.device).Failure?)
    ensures r.model.Failure? ==> r.service == s
    ensures name in s.models ==> r.service == s
    ensures r.model.Success? ==> name in r.service.models && r.service.models[name] == r.model.value
    ensures r.model.Success? && name !in s.models ==> r.model == load(name, s.device)
    ensures name in AvailableModels && name !in s.models && load(name, s.device).Failure? ==>
              r == Load(s, load(name, s.device))
    ensures r.service.device == s.device
    ensures r.service.models.Keys <= s.models.Keys + {name}
    ensures forall k :: k in s.models ==> k in r.service.models && r.service.models[k] == s.models[k]
    ensures Valid(s) ==> Valid(r.service)
  {
    if name !in AvailableModels then
      Load(s, Failure(NotAvailableMessage(name)))
    else if name in s.models then
      Load(s, Success(s.models[name]))
    else
      match load(name, s.device)
      case Success(m) => Load(s.(models := s.models[name := m]), Success(m))
      case Failure(e) => Load(s, Failure(e))
  }

  /** A cached model is returned whatever the loader would do: no load happens. */
  lemma CachedLoadSkipsLoader(s: Service, name: string, l1: Loader, l2: Loader)
    requires name in s.models
    ensures LoadModel(s, name, l1) == LoadModel(s, name, l2)
  {
  }

  /** Loading the same name twice yields the same model and the second call
      leaves the cache untouched. */
  lemma LoadTwiceSameModel(s: Service, name: string, l1: Loader, l2: Loader)
    requires LoadModel(s, name, l1).model.Success?
    ensures var first := LoadModel(s, name, l1);
            LoadModel(first.service, name, l2) == first
  {
  }

  /** The constructor: picks the device, starts from an empty cache and preloads
      the default model; a failed preload makes the constructor raise. */
  function NewService(cudaAvailable: bool, load: Loader): (r: Result<Service>)
    ensures r.Success? <==> load(DefaultModel, DeviceFor(cudaAvailable)).Success?
    ensures r.Failure? ==> r == Failure(load(DefaultModel, DeviceFor(cudaAvailable)).error)
    ensures r.Success? ==> Valid(r.value) && r.value.models.Keys == {DefaultModel}
    ensures r.Success? ==> r.value.device == DeviceFor(cudaAvailable)
  {
    var l := LoadModel(Service(map[], DeviceFor(cudaAvailable)), DefaultModel, load);
    if l.model.Success? then Success(l.service) else Failure(l.model.error)
  }

  /** `is_model_loaded`, whose name defaults to the default model. */
  function IsModelLoaded(s: Service, name: string := DefaultModel): (b: bool)
    ensures Valid(s) && b ==> name in AvailableModels
    ensures Valid(s) ==> (b <==> LoadModel(s, name, (n, d) => Failure("no loader")).model.Success?)
  {
    name in s.models
  }

  /** A freshly constructed service has the default model loaded. */
  lemma NewServiceLoadsDefault(cudaAvailable: bool, load: Loader)
    requires NewService(cudaAvailable, load).Success?
    ensures IsModelLoaded(NewService(cudaAvailable, load).value)
    ensures forall n :: IsModelLoaded(NewService(cudaAvailable, load).value, n) <==> n == DefaultModel
  {
  }

  /** A successful `_load_model` leaves the name loaded; a failed one changes nothing
      about which names are loaded. */
  lemma LoadMarksLoaded(s: Service, name: string, load: Loader)
    ensures LoadModel(s, name, load).model.Success? ==> IsModelLoaded(LoadModel(s, name, load).service, name)
    ensures LoadModel(s, name, load).model.Failure? ==>
              forall n :: IsModelLoaded(LoadModel(s, name, load).service, n) <==> IsModelLoaded(s, n)
  {
  }

  /** `list_available_models`. */
  function ListAvailableModels(s: Service): (r: seq<string>)
    ensures |r| == 5
    ensures forall i, j :: 0 <= i < j < |r| ==> r[i] != r[j]
    ensures DefaultModel in r
  {
    AvailableModels
  }

  /** The listed names are exactly the names `_load_model` accepts when the
      loader itself succeeds. */
  lemma ListedNamesAreAccepted(s: Service, name: string)
    ensures name in ListAvailableModels(s) <==>
              LoadModel(s, name, (n, d) => Success(Model(n, d, 0))).model.Success?
  {
  }

  /** `release_memory`: every cached model is dropped. */
  function ReleaseMemory(s: Service): (r: Service)
    ensures forall n :: !IsModelLoaded(r, n)
    ensures r.device == s.device && Valid(r)
  {
    s.(models := map[])
  }

  /** After a release, the next `_load_model` of an accepted name calls the loader again. */
  lemma ReleaseThenLoadReloads(s: Service, name: string, load: Loader)
    requires name in AvailableModels
    ensures LoadModel(ReleaseMemory(s), name, load).model == load(name, s.device)
  {
  }

  /** The keyword arguments of a one-shot `transcribe`: only the language, and
      only when it is truthy. */
  function OneShotOptions(language: Option<string>): (o: Options)
    ensures o.Keys == if Truthy(language) then {"language"} else {}
    ensures "language" in o ==> o["language"] == StrOpt(language.value)
  {
    if Truthy(language) then map["language" := StrOpt(language.value)] else map[]
  }

  /** The keyword arguments of a streaming `transcribe_chunk`: always single
      precision off and greedy decoding, plus the language when it is truthy. */
  function StreamingOptions(language: Option<string>): (o: Options)
    ensures o.Keys == {"fp16", "beam_size"} + (if Truthy(language) then {"language"} else {})
    ensures o["fp16"] == BoolOpt(false) && o["beam_size"] == IntOpt(1)
    ensures "language" in o ==> o["language"] == StrOpt(language.value)
  {
    var base := map["fp16" := BoolOpt(false), "beam_size" := IntOpt(1)];
    if Truthy(language) then base["language" := StrOpt(language.value)] else base
  }

  /** The streaming options extend the one-shot options with exactly two keys. */
  lemma StreamingExtendsOneShot(language: Option<string>)
    ensures forall k :: k in OneShotOptions(language) ==>
              k in StreamingOptions(language) && StreamingOptions(language)[k] == OneShotOptions(language)[k]
    ensures StreamingOptions(language).Keys - OneShotOptions(language).Keys == {"fp16", "beam_size"}
  {
  }

  /** The cache after a transcription call and the text or error it produced. */
  datatype Transcription = Transcription(service: Service, text: Result<string>)

  /** Shared body of `transcribe` and `transcribe_chunk`: load (or reuse) the
      model, then run it with the given options; every error is re-raised. */
  function RunModel(s: Service, audio: Bytes, name: string, options: Options,
                    load: Loader, infer: Inference): (r: Transcription)
    ensures r.service == LoadModel(s, name, load).service
    ensures LoadModel(s, name, load).model.Failure? ==> r.text == Failure(LoadModel(s, name, load).model.error)
    ensures LoadModel(s, name, load).model.Success? ==>
              r.text == infer(LoadModel(s, name, load).model.value, audio, options)
  {
    var l := LoadModel(s, name, load);
    match l.model
    case Failure(e) => Transcription(l.service, Failure(e))
    case Success(m) => Transcription(l.service, infer(m, audio, options))
  }

  /** `transcribe`: one-shot transcription with the one-shot options. */
  function Transcribe(s: Service, audio: Bytes, load: Loader, infer: Inference,
                      name: string := DefaultModel, language: Option<string> := None): (r: Transcription)
    ensures r.service == LoadModel(s, name, load).service
    ensures LoadModel(s, name, load).model.Failure? ==> r.text == Failure(LoadModel(s, name, load).model.error)
    ensures LoadModel(s, name, load).model.Success? ==>
              r.text == infer(LoadModel(s, name, load).model.value, audio, OneShotOptions(language))
  {
    RunModel(s, audio, name, OneShotOptions(language), load, infer)
  }

  /** `transcribe_chunk`: streaming transcription with the streaming options. */
  function TranscribeChunk(s: Service, audio: Bytes, load: Loader, infer: Inference,
                           name: string := DefaultModel, language: Option<string> := None): (r: Transcription)
    ensures r.service == LoadModel(s, name, load).service
    ensures LoadModel(s, name, load).model.Failure? ==> r.text == Failure(LoadModel(s, name, load).model.error)
    ensures LoadModel(s, name, load).model.Success? ==>
              r.text == infer(LoadModel(s, name, load).model.value, audio, StreamingOptions(language))
  {
    RunModel(s, audio, name, StreamingOptions(language), load, infer)
  }
}
