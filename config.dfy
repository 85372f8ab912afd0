/** The server's connection settings (`ElasticsearchConfig` in elastic_mcp_server.py). */
module Config {
  import opened Wrappers

  /** The three `ValueError`s the constructor can raise. */
  datatype ConfigError = EmptyUrl | PasswordMissing | UsernameMissing

  /** The checks at the head of `__init__`, in their order: the URL first, then a
      username without a password, then a password without a username.
      `None` means that the constructor goes on to store its arguments. */
  function Validate(url: string, username: Option<string>, password: Option<string>): (r: Option<ConfigError>)
    ensures r == Some(EmptyUrl) <==> url == ""
    ensures r == Some(PasswordMissing) <==> url != "" && Truthy(username) && !Truthy(password)
    ensures r == Some(UsernameMissing) <==> url != "" && Truthy(password) && !Truthy(username)
    ensures r == None <==> url != "" && (Truthy(username) <==> Truthy(password))
  {
    if url == "" then Some(EmptyUrl)
    else if Truthy(username) && !Truthy(password) then Some(PasswordMissing)
    else if Truthy(password) && !Truthy(username) then Some(UsernameMissing)
    else None
  }

  /** The defaults of the last two keyword arguments of `__init__`. */
  const DEFAULT_SEARCH_TEMPLATE: string := "properties-search-template"
  const DEFAULT_INFERENCE_ID: string := ".elser-2-elasticsearch"

  class ElasticsearchConfig {
    var url: string
    var apiKey: Option<string>
    var username: Option<string>
    var password: Option<string>
    var caCert: Option<string>
    var googleMapsApiKey: Option<string>
    var propertiesSearchTemplate: string
    var inferenceId: string

    /** What every configuration that the validation let through satisfies:
        a non-empty URL, and a username exactly when there is a password. */
    predicate Valid()
      reads this
    {
      url != "" && (Truthy(username) <==> Truthy(password))
    }

    /** The assignments of `__init__`, reached only once the checks passed:
        every argument is stored unchanged. */
    constructor (url: string, apiKey: Option<string>, username: Option<string>, password: Option<string>,
                 caCert: Option<string>, googleMapsApiKey: Option<string>,
                 propertiesSearchTemplate: string, inferenceId: string)
      requires Validate(url, username, password).None?
      ensures Valid()
      ensures this.url == url && this.apiKey == apiKey
      ensures this.username == username && this.password == password
      ensures this.caCert == caCert && this.googleMapsApiKey == googleMapsApiKey
      ensures this.propertiesSearchTemplate == propertiesSearchTemplate && this.inferenceId == inferenceId
    {
      this.url := url;
      this.apiKey := apiKey;
      this.username := username;
      this.password := password;
      this.caCert := caCert;
      this.googleMapsApiKey := googleMapsApiKey;
      this.propertiesSearchTemplate := propertiesSearchTemplate;
      this.inferenceId := inferenceId;
    }

    /** `ElasticsearchConfig(...)`: raises the first failing check, otherwise
        builds a configuration holding exactly the arguments. */
    static method New(url: string, apiKey: Option<string>, username: Option<string>, password: Option<string>,
                      caCert: Option<string>, googleMapsApiKey: Option<string>,
                      propertiesSearchTemplate: string, inferenceId: string)
      returns (r: Result<ElasticsearchConfig, ConfigError>)
      ensures r.Failure? <==> Validate(url, username, password).Some?
      ensures r.Failure? ==> r.error == Validate(url, username, password).value
      ensures r.Success? ==> fresh(r.value) && r.value.Valid()
      ensures r.Success? ==> r.value.url == url && r.value.apiKey == apiKey
      ensures r.Success? ==> r.value.username == username && r.value.password == password
      ensures r.Success? ==> r.value.caCert == caCert && r.value.googleMapsApiKey == googleMapsApiKey
      ensures r.Success? ==> r.value.propertiesSearchTemplate == propertiesSearchTemplate
      ensures r.Success? ==> r.value.inferenceId == inferenceId
    {
      var error := Validate(url, username, password);
      if error.Some? {
        return Failure(error.value);
      }
      var c := new ElasticsearchConfig(url, apiKey, username, password, caCert, googleMapsApiKey,
                                       propertiesSearchTemplate, inferenceId);
      return Success(c);
    }

    /** `ElasticsearchConfig(url)`: every other argument takes its default, so
        only the URL can be refused, and the result holds no credentials. */
    static method WithDefaults(url: string) returns (r: Result<ElasticsearchConfig, ConfigError>)
      ensures r.Failure? <==> url == ""
      ensures r.Failure? ==> r.error == EmptyUrl
      ensures r.Success? ==> fresh(r.value) && r.value.Valid() && r.value.url == url
      ensures r.Success? ==> r.value.apiKey.None? && r.value.username.None? && r.value.password.None?
      ensures r.Success? ==> r.value.caCert.None? && r.value.googleMapsApiKey.None?
      ensures r.Success? ==> r.value.propertiesSearchTemplate == DEFAULT_SEARCH_TEMPLATE
      ensures r.Success? ==> r.value.inferenceId == DEFAULT_INFERENCE_ID
    {
      r := New(url, None, None, None, None, None, DEFAULT_SEARCH_TEMPLATE, DEFAULT_INFERENCE_ID);
    }
  }
}
